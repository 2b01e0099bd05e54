# Slug scripts, fills, positions and money

A Dafny model of the parts of the trading backend (and of one chart of its frontend) whose
correctness is hardest to see from the code, with proofs of what they promise. Everything
is stated for all inputs, all runs and all interleavings.

| modules | what they model |
|---|---|
| `SlugAst`, `SlugValidator`, `SlugExpressions`, `SlugExecution`, `SlugEvaluator` | the Python-subset filter `should_include(slug)`: the whitelist, and the interpreter with its sentinel objects, its budget of 50,000 statements and its 10,000 rounds per loop (an object with a variable table and a counter, proved against recursive functions) |
| `PythonExpressions`, `PythonSemantics` | the Python Language Reference for the admitted forms: names and calls (4.2.2, 6.3.4), augmented assignment (7.2.1), compound statements (8), as functions and inference rules without sentinels or budget |
| `SlugLaws`, `SlugRefinement`, `SlugTheorems`, `SlugStatic`, `SlugExamples` | laws of every run, the two-way refinement between rules and interpreter for every accepted program, a condition on the text alone under which the two agree, and the programs that tell them apart |
| `SlugMeaning`, `SlugWhitelist`, `SlugSandbox` | what scripts see and say in terms of strings and numbers, what exactly the whitelist accepts, and what it keeps accepted scripts independent of |
| `Fifo`, `FillAccounting`, `FillLaws`, `UserWs` | how a watched order turns cumulative reports and single trades, in any order and with repeats, into fills |
| `BuyEntry`, `BuyEntryLaws`, `EntryOutcome` | a resting BUY as a state machine over exchange, watch, event-loop queue, entry timer and trade, one move per stretch between two awaits |
| `SellExit`, `SellAttempts`, `SellVerdicts`, `SweepTrade`, `SellFeed` | the callbacks of a resting SELL, the log that the selling loop keeps to, when it closes and what it offers, the trade object with its loop, and the link from fill accounting to the loop |
| `BalancePoller`, `Reservations` | the shared wallet and any number of trades reserving and releasing on it |
| `OrderReplies` | exchange replies, execution prices and profit |
| `TradeProfit`, `ProfitColumns` | first-in-first-out profit matching of the trade chart |
| `SignalPaging` | keyset paging over the recent signals |
| `InstancePool` | strategy instances following their configurations |

Where the code and the promise part ways, the code is modelled and the exact condition is
proved:

- Watched runs follow Python's rules and carry a mark from the point on at which Python does
  what the interpreter does not. An unstopped run of any accepted program ends as its one
  watched run exactly when that has no mark, and then that is Python's one run
  (`SlugTheorems.UnstoppedRunIsPython`). The "only when" is about the mark: past it the
  answers may differ and may agree, as for `a = [1]; a += [2]; return len(a) == 2`, where the
  list has no second name. Python parts ways at five points: `break` or
  `continue` in a loop's `else` block, which the interpreter swallows; `x += e` with `x`
  unbound, which raises in Python and starts from 0 here; `+=` or `*=` on a list, which
  Python updates in place for every name it has; a call of a local name that hides a
  builtin; a builtin used as a value. `SlugTheorems.ElseBlockExactly` is the exact
  condition at the loop, `SlugStatic.TameAnswersAsPython` a condition that can be
  checked on the text before any run, and `SlugExamples` has a program for each.
- `break` and `continue` outside any loop pass the whitelist and count as an inclusion
  (`SlugTheorems.StrayBreakExactly`).
- A reconnect poll that is under way when the entry timer fires keeps using the watch it
  listed. If it ends after the cancel was answered, what it adds is counted a second time
  (`BuyEntryLaws.SettledExactly`, with the run of `LatePollCountsTwice`). Without such a
  poll the position is exact under every interleaving (`TimeoutIsExact`).
- When an entry fails, the risk monitor is stopped before the trade is closed. A late poll's
  fill can still be booked meanwhile; one that completes the order cancels the timer's task,
  and then the trade stays open or is closed while it holds the whole order, as the monitor
  passes the cancellation on or swallows it (`EntryOutcome.StoppedExactly`). Without a poll
  in flight nothing comes in between (`ClosesAtAnswer`).
- A cancel callback of a SELL runs at once while fill callbacks are only scheduled; shares
  whose callback was still waiting are recorded twice, and only those
  (`SellExit.CancelOvertakesFills`; `CancelCountsTwice` is a run). Over a whole selling loop
  the books are what the exchange reported plus the shares of all late callbacks, so they
  are exact if and only if none came late (`SellAttempts.LateSharesOnTop`).
- Zero-wait retries bound each other by the cent (`SellAttempts.BurstIsBounded`); a fill
  callback of an older order that runs while one of them is on its way can lengthen the row
  (`CallbacksLengthenBursts`), but not beyond `NoisyBurst` and `BurstWithCallbacks`.
- The limit price stands in for a trade price exactly when a report overtakes its trades
  (`FillLaws.LimitPriceUnusedExactly`).

Conventions. `Decimal` amounts are reals. What CPython's own objects do (arithmetic,
comparison, attributes, methods, builtins, subscripts, folding to lower case, searching for a
regular expression) is a parameter of the interpreter,
and so are the answers of the exchange, of the tick service and of `create`: every result
holds for all of them. A method that waits for the network is split at the await.

## Model

| member | source | states |
|---|---|---|
| SlugExpressions.ChainIsConjunction | backend/src/framework/slug_script.py:342-367 | a comparison chain of any length means the conjunction of its links, the middle operand carried over, as section 6.10 of the Python Language Reference defines it |
| SlugEvaluator.Evaluator.constructor | backend/src/framework/slug_script.py:207-209 | a run starts with `slug` as its only variable and no steps taken |
| SlugEvaluator.Evaluator.Tick | backend/src/framework/slug_script.py:211-214 | one step more, and failure as soon as the counter passes the limit |
| SlugEvaluator.Evaluator.RunBlock | backend/src/framework/slug_script.py:216-221 | the loop over statements leaves the variable table, the counter and the outcome of the recursive block semantics |
| SlugEvaluator.Evaluator.ExecStmt | backend/src/framework/slug_script.py:223-291 | every statement form changes the object's state as the statement semantics says, failures included |
| SlugEvaluator.Evaluator.ExecAugAssign | backend/src/framework/slug_script.py:233-243 | an augmented assignment binds the combined value or fails |
| SlugEvaluator.Evaluator.AugmentedValue | backend/src/framework/slug_script.py:233-242 | the value to assign, an unbound name counting as 0 and other operators assigning nothing |
| SlugEvaluator.Evaluator.ExecFor | backend/src/framework/slug_script.py:244-263 | the real for loop with its counter computes the recursive loop semantics, `else` block included |
| SlugEvaluator.Evaluator.ExecWhile | backend/src/framework/slug_script.py:264-281 | the real while loop terminates and computes the recursive loop semantics, `else` block included |
| SlugEvaluator.Evaluator.RunElse | backend/src/framework/slug_script.py:259-262 | the `else` block is run and its break or continue object is dropped |
| SlugEvaluator.Evaluator.EvalExpr | backend/src/framework/slug_script.py:293-403 | evaluation of every expression form, in order and with its failures, without touching a variable |
| SlugEvaluator.Evaluator.EvalExprOption | backend/src/framework/slug_script.py:387-389 | a missing slice bound is None |
| SlugEvaluator.Evaluator.EvalConjunction | backend/src/framework/slug_script.py:307-314 | `and` stops at the first false operand and gives an operand's own value |
| SlugEvaluator.Evaluator.EvalDisjunction | backend/src/framework/slug_script.py:315-321 | `or` stops at the first true operand and gives an operand's own value |
| SlugEvaluator.Evaluator.EvalComparisons | backend/src/framework/slug_script.py:342-367 | the comparison loop computes the chain semantics, operators and operands paired up to the shorter list |
| SlugEvaluator.Evaluator.EvalExprs | backend/src/framework/slug_script.py:369-398 | arguments and elements are evaluated left to right up to the first failure |
| SlugEvaluator.Evaluate | backend/src/framework/slug_script.py:452-458 | the answer for a raw slug is the verdict on the run of the program on the normalized slug |
| SlugMeaning.LoopVisitsItems | backend/src/framework/slug_script.py:244-263 | a loop over a string visits its characters, over a list or tuple its elements, over a range the values from start on, in steps, before stop: each once, in order, at one step of the counter a round besides its body |
| SlugMeaning.OthersAreNotVisited | backend/src/framework/slug_script.py:244-247 | a loop over None, a boolean, a number or an opaque value fails with the type error |
| SlugMeaning.RespellingGivesSlug | backend/src/framework/slug_script.py:233-263 | `acc = ""; for c in slug: acc += c` leaves acc equal to the normalized slug, for every slug within the limits |
| SlugMeaning.FalseExactly | backend/src/framework/slug_script.py:452-458 | a returned value excludes the slug if and only if it is None, False, zero, an empty string, list, tuple or range, or an object that says so itself |
| SlugMeaning.InSlugExactly | backend/src/framework/slug_script.py:342-367 | `return w in slug` includes exactly the slugs in which w occurs |
| SlugMeaning.IntervalExactly | backend/src/framework/slug_script.py:342-367 | `lo <= e < hi` holds exactly of the integers between |
| SlugMeaning.HelpersAnswer | backend/src/framework/slug_script.py:411-416 | contains, starts_with and ends_with say, of both texts folded to lower case, whether the second occurs in, begins or ends the first |
| SlugMeaning.ContainsAnyAnswers | backend/src/framework/slug_script.py:417-419 | contains_any says whether one of the words occurs, whatever their number |
| SlugMeaning.MatchesAnswers | backend/src/framework/slug_script.py:420-421 | matches searches its first argument for its second |
| SlugMeaning.HelpersNeedTwo | backend/src/framework/slug_script.py:411-421 | a helper with fewer than two arguments fails with a Python error |
| SlugMeaning.BuiltinIsCalled | backend/src/framework/slug_script.py:405-410 | each of the nine builtins is called with the values of its arguments, and what it raises is raised |
| SlugWhitelist.BlockExactly | backend/src/framework/slug_script.py:63-115 | a program is accepted if and only if every statement in it, however deep, is of an admitted kind and so is every expression in every statement |
| SlugWhitelist.StmtExactly | backend/src/framework/slug_script.py:63-115 | the same for one statement |
| SlugWhitelist.ExprExactly | backend/src/framework/slug_script.py:118-190 | an expression is accepted if and only if all its parts are of admitted kinds |
| SlugWhitelist.FunctionsExactly | backend/src/framework/slug_script.py:148-153 | by name exactly the nine builtins and five helpers can be called |
| SlugWhitelist.MethodsExactly | backend/src/framework/slug_script.py:154-159 | of methods exactly the twelve of strings can be called |
| SlugWhitelist.EscapesAreRefused | backend/src/framework/slug_script.py:123-128 | no accepted program reads one of the twenty-two forbidden names or a double-underscore name, wherever it stands |
| SlugWhitelist.LocalsExactly | backend/src/framework/slug_script.py:225-250 | the local names of the reference are those that some statement of the program binds |
| SlugLaws.LoopNeverLeaks | backend/src/framework/slug_script.py:244-281 | for every program whatsoever a loop statement never hands break or continue to the block around it |
| SlugLaws.WhileNeverLeaks | backend/src/framework/slug_script.py:264-281 | the same from any round of a while loop on |
| SlugLaws.ForNeverLeaks | backend/src/framework/slug_script.py:244-263 | the same from any item of a for loop on |
| SlugLaws.PlacedNeverLeaks | backend/src/framework/slug_script.py:216-291 | a statement whose breaks and continues all stand in loop bodies completes with neither |
| SlugLaws.PlacedBlockNeverLeaks | backend/src/framework/slug_script.py:216-221 | the same for a block |
| SlugLaws.RaisingLimits | backend/src/framework/slug_script.py:211-281 | a run that neither limit stopped is unchanged, state and answer, under every pair of larger limits |
| SlugLaws.RaisingLimitsBlock | backend/src/framework/slug_script.py:216-221 | the same for a block |
| SlugLaws.RaisingLimitsFor | backend/src/framework/slug_script.py:244-263 | the same from any point of a for loop on |
| SlugLaws.RaisingLimitsWhile | backend/src/framework/slug_script.py:264-281 | the same from any round of a while loop on |
| SlugLaws.EvalFaults | backend/src/framework/slug_script.py:118-190 | an expression the whitelist accepts never reaches an unsupported expression, operator or function, in any variable environment |
| SlugLaws.EvalListFaults | backend/src/framework/slug_script.py:307-321 | the same for argument lists, `and` and `or` |
| SlugLaws.EvalChainFaults | backend/src/framework/slug_script.py:342-367 | the same for comparison chains |
| SlugLaws.RunIsOrderly | backend/src/framework/slug_script.py:211-291 | however loops are nested the counter never passes the limit by more than one, it does so exactly when the run stops there, and an accepted statement fails only by the budget, an undefined name or a Python error |
| SlugLaws.BlockIsOrderly | backend/src/framework/slug_script.py:216-221 | the same for a block |
| SlugLaws.ForIsOrderly | backend/src/framework/slug_script.py:244-263 | the same from any point of a for loop on |
| SlugLaws.WhileIsOrderly | backend/src/framework/slug_script.py:264-281 | the same from any round of a while loop on |
| SlugRefinement.ExecIsFaithful | backend/src/framework/slug_script.py:223-291 | an unstopped execution of any accepted statement has a derivation in the reference's own rules with the same completion and variables, unless that derivation parts ways |
| SlugRefinement.LoopIsFaithful | backend/src/framework/slug_script.py:244-281 | the same for a loop, up to what its own `else` block completes with |
| SlugRefinement.BlockIsFaithful | backend/src/framework/slug_script.py:216-221 | the same for a block |
| SlugRefinement.WhileIsFaithful | backend/src/framework/slug_script.py:264-281 | the same from any round of a while loop on (section 8.2) |
| SlugRefinement.ForIsFaithful | backend/src/framework/slug_script.py:244-263 | the same from any item of a for loop on (section 8.3) |
| SlugRefinement.SimpleIsFaithful | backend/src/framework/slug_script.py:225-243 | simple statements do what the reference's rules say, or part ways |
| SlugRefinement.AugAssignIsFaithful | backend/src/framework/slug_script.py:233-243 | augmented assignment against the rule of section 7.2.1: the same, or the rule parts ways, which it does, when the operand has a value, if and only if the name is unbound or the old value a list under `+=` or `*=` |
| SlugRefinement.ExecCosts | backend/src/framework/slug_script.py:211-291 | a derivation of a statement that does not part ways has an exact cost: budgets that cover it compute it, all others stop it |
| SlugRefinement.BlockHasCost | backend/src/framework/slug_script.py:216-221 | the same for a block |
| SlugRefinement.WhileHasCost | backend/src/framework/slug_script.py:264-281 | the same for a while loop from any round on, its own rounds counted apart from those of loops inside |
| SlugRefinement.ForHasCost | backend/src/framework/slug_script.py:244-263 | the same for a for loop from any item on |
| SlugTheorems.UnstoppedRunIsPython | backend/src/framework/slug_script.py:216-291 | for every accepted program an unstopped run follows the program's one watched run, ends as it does if and only if that does not part ways, and then it is the one run Python makes |
| SlugTheorems.PythonRunIsComputed | backend/src/framework/slug_script.py:211-281 | a program whose run does not part ways has an exact cost in statements and in rounds of its longest loop: a budget gives Python's result if and only if it covers both |
| SlugTheorems.PythonRunIsReached | backend/src/framework/slug_script.py:216-281 | whatever Python's run ends with is computed under every large enough budget, unless the run leaves an `else` block |
| SlugTheorems.EvaluateAnswersAsPython | backend/src/framework/slug_script.py:452-458 | within the published limits the answer is that of Python's one run on the normalized slug, unless that parts ways or ends with a stray break |
| SlugTheorems.EvaluateAnswersExactly | backend/src/framework/slug_script.py:26-27 | Python's answer is given if and only if its run takes at most 50,000 statements and no loop in it more than 10,000 rounds |
| SlugTheorems.ElseBlockExactly | backend/src/framework/slug_script.py:259-280 | for every accepted loop: it ends as in Python if and only if its `else` block does not break or continue; otherwise execution goes on after the loop with the same variables |
| SlugTheorems.StrayBreakExactly | backend/src/framework/slug_script.py:452-458 | every accepted program leaves a break or continue object behind if and only if Python's block completes with one, and then answers True |
| SlugStatic.TameStays | backend/src/framework/slug_script.py:223-291 | a tame statement never parts ways, breaks only inside loops, keeps its counters from being lists and binds the names it is said to |
| SlugStatic.TameAnswersAsPython | backend/src/framework/slug_script.py:452-458 | for an accepted program that passes the check on its text, every answer is Python's one answer |
| SlugStatic.TameAnswersExactly | backend/src/framework/slug_script.py:452-458 | and Python's answer is given if and only if its run is within 50,000 statements and 10,000 rounds per loop |
| PythonSemantics.PythonIsDeterministic | backend/src/framework/slug_script.py:216-281 | a program has at most one run under the reference rules, which is what makes the theorems speak of the one run |
| PythonSemantics.WatchingIsHarmless | backend/src/framework/slug_script.py:259-280 | a watched run that leaves no `else` block is the one run of the plain rules |
| PythonExpressions.EvalIsPython | backend/src/framework/slug_script.py:293-422 | an accepted expression has the value that Python's rules for names and calls give it, unless a local is called or a global taken for a value; plain expressions never do either |
| SlugExamples.BreakInElseIsSwallowed | backend/src/framework/slug_script.py:279-280 | an accepted program that Python answers with False and the interpreter with True |
| SlugExamples.LoneBreakAnswersTrue | backend/src/framework/slug_script.py:282-283 | `break` alone is accepted and answers True on every slug |
| SlugExamples.UnboundCountsAsZero | backend/src/framework/slug_script.py:233-243 | `x += 1` with x unbound raises in Python and gives 0 + 1 here |
| SlugExamples.ListIsReplaced | backend/src/framework/slug_script.py:235-242 | `a = [1]; b = a; a += [2]; return len(b) == 1` is accepted, Python updates the shared list in place, and the interpreter binds a new one and answers True |
| SlugExamples.LocalIsNotCalled | backend/src/framework/slug_script.py:378-381 | `len = 0; return len(slug)` is accepted, Python calls the local, and the interpreter the builtin |
| SlugExamples.GlobalIsNotFound | backend/src/framework/slug_script.py:296-305 | `return len` is accepted, Python returns the builtin, and the interpreter finds no such name |
| SlugExamples.CountingIsTame | backend/src/framework/slug_script.py:233-263 | the check on the text admits a loop that counts the characters of the slug |
| SlugSandbox.EvalIsPublic | backend/src/framework/slug_script.py:118-190 | an accepted expression has the same value under any two object models that differ only in double-underscore attributes |
| SlugSandbox.BlockIsPublic | backend/src/framework/slug_script.py:216-291 | an accepted block leaves the same outcome, variables and step count under both |
| SlugSandbox.AnswerIsPublic | backend/src/framework/slug_script.py:167-170 | what an accepted script answers on any slug does not depend on what any object's double-underscore attributes are |
| FillAccounting.DrainSizes | backend/src/framework/user_ws.py:326-348 | splitting a match conserves its quantity and uses the pending trades up from the front |
| FillAccounting.DrainValues | backend/src/framework/user_ws.py:326-348 | each part is priced at its own trade and only the excess at the limit |
| FillAccounting.DrainUnder | backend/src/framework/user_ws.py:326-340 | what is filled under a trade id is what leaves the pending trades under it |
| FillAccounting.DrainTotals | backend/src/framework/user_ws.py:329-348 | every fill is positive, announces the exact running total and carries the price of a trade with its id |
| FillLaws.EveryHistoryIsSound | backend/src/framework/user_ws.py:314-425 | after every history: initial match plus fills is the last match; positive fills with prefix-sum totals; trades used up in arrival order with at most the head cut, each at its price; per trade id filled plus pending is its size; duplicates add nothing |
| FillLaws.RunIsSound | backend/src/framework/user_ws.py:314-425 | the same from every sound state on |
| FillLaws.StepIsSound | backend/src/framework/user_ws.py:314-425 | one report, trade or poll keeps all of it |
| FillLaws.AcceptedExactly | backend/src/framework/user_ws.py:364-372 | of every history exactly the first well-formed trade message of each id is accepted, at its size and price, in order of arrival |
| FillLaws.LastIsLargest | backend/src/framework/user_ws.py:176-425 | the last match is the largest of the opening match and everything reported |
| FillLaws.SameReportsSameQuantity | backend/src/framework/user_ws.py:314-348 | histories with the same set of reported amounts, in any order and with any repeats, send out the same quantity: the largest report above the initial match |
| FillLaws.FallbackGrows | backend/src/framework/user_ws.py:342-348 | a step uses the limit price if and only if its report is not covered by trades that came before it |
| FillLaws.LimitPriceUnusedExactly | backend/src/framework/user_ws.py:342-425 | the limit price is never used if and only if every effective report came after its trades; then the value sent out is the cost of the matched shares in arrival order |
| FillLaws.InterleavingDoesNotMatter | backend/src/framework/user_ws.py:314-372 | the same trades and reports, interleaved in any covered way, send out the same quantity and the same value |
| FillLaws.FullyReported | backend/src/framework/user_ws.py:314-372 | when all that was traded is reported, the value is the sum of size times price over the trades |
| UserWs.OrderWatch.constructor | backend/src/framework/user_ws.py:64-74 | a watch starts at the initial match with nothing seen or pending |
| UserWs.Client.constructor | backend/src/framework/user_ws.py:87-94 | a client starts without watches |
| UserWs.Client.WatchOrder | backend/src/framework/user_ws.py:126-145 | registers a new watch, replacing an older one and touching no other |
| UserWs.Client.UnwatchOrder | backend/src/framework/user_ws.py:147-150 | forgets one order and no other |
| UserWs.Client.HandleOrderEvent | backend/src/framework/user_ws.py:314-348 | an update changes its watch and schedules callbacks exactly as the report law says; unknown orders and stale amounts change nothing |
| UserWs.Client.ConsumeTrades | backend/src/framework/user_ws.py:326-348 | the loop that pops and rewrites the head of the pending trades computes the split |
| UserWs.Client.EmitFill | backend/src/framework/user_ws.py:374-400 | a fill is scheduled behind those already scheduled |
| UserWs.Client.HandleTradeEvent | backend/src/framework/user_ws.py:364-372 | a trade is queued once; duplicates, empty trades and unknown orders change nothing |
| UserWs.Client.FinishReconcile | backend/src/framework/user_ws.py:152-183 | a REST answer above the match of the watch it was asked for acts as a report on the order's present watch; otherwise, or when the order is no longer watched, nothing changes |
| UserWs.Client.FinishReconnectPoll | backend/src/framework/user_ws.py:404-427 | a poll's answer moves the listed watch, even an unregistered one, and is priced at the limit without touching the pending trades |
| BuyEntryLaws.MoveKeepsInv | backend/src/strategy_follow_weather_sweeper/service.py:717-905 | every move of exchange, client, event loop, timer or trade keeps position plus queued fills equal to the watch's match, the announced totals exact and the cancel's answer final |
| BuyEntryLaws.RunKeepsInv | backend/src/strategy_follow_weather_sweeper/service.py:717-905 | the same along every run |
| BuyEntryLaws.UpdateKeepsInv | backend/src/framework/user_ws.py:314-348 | an order update keeps it |
| BuyEntryLaws.PollEndKeepsInv | backend/src/framework/user_ws.py:404-427 | the end of a reconnect poll keeps it |
| BuyEntryLaws.CompletionKeepsInv | backend/src/strategy_follow_weather_sweeper/service.py:833-843 | the fill that completes the order ends the entry with position equal to order size and nothing left in the queue |
| BuyEntryLaws.ResumeKeepsInv | backend/src/strategy_follow_weather_sweeper/service.py:858-905 | accounting for the cancel's answer keeps it |
| BuyEntryLaws.WatchedIsBalanced | backend/src/strategy_follow_weather_sweeper/service.py:735-843 | in every run, while the BUY is watched, position plus the fills still queued is the watch's cumulative match |
| BuyEntryLaws.SettledExactly | backend/src/strategy_follow_weather_sweeper/service.py:845-905 | in every run the settled position is the exchange's match plus exactly what a reconnect poll moved the watch by after the cancel was answered; a trade closed without a fill had none |
| BuyEntryLaws.WatchIsFrozen | backend/src/framework/user_ws.py:147-150 | an unwatched order without a poll in flight is out of reach of every message |
| BuyEntryLaws.TimeoutIsExact | backend/src/strategy_follow_weather_sweeper/service.py:845-905 | with no poll in flight when the timer fires, the settled position is exactly what the exchange matched, under every interleaving of updates, callbacks, matches and the cancel |
| BuyEntryLaws.EntryCostIsExact | backend/src/strategy_follow_weather_sweeper/service.py:785-886 | in every run an open trade's entry cost, with what is queued, is the cost of the first fill plus every fill at its own price plus, at the limit, only the shares that the timeout found and no fill stood for |
| BuyEntryLaws.EntryIsFillHistory | backend/src/framework/user_ws.py:314-427 | in every run the fills sent out are those that fill accounting makes of the messages that reached the watch, so that all its laws hold of them |
| BuyEntryLaws.MoveKeepsCost | backend/src/strategy_follow_weather_sweeper/service.py:785-886 | every move keeps that balance |
| BuyEntryLaws.LatePollCountsTwice | backend/src/framework/user_ws.py:404-427 | a run in which a poll that ends late turns 4 matched shares into a position of 8 |
| EntryOutcome.EntryEndsExactly | backend/src/strategy_follow_weather_sweeper/service.py:833-905 | in every run the BUY order id is held while the order is watched; a trade whose announced total reaches the order size before the timer has finished has completed its entry; outside the stop of the risk monitor a trade may go on to sell if and only if its entry is complete or timed out without closing it; it closes for want of a fill only if nothing was announced at the cancel's answer, and for a failed cancel with the order id kept unless the order was filled |
| EntryOutcome.MoveKeepsOutcome | backend/src/strategy_follow_weather_sweeper/service.py:833-905 | every move keeps that |
| EntryOutcome.ClosedWhenRefused | backend/src/strategy_follow_weather_sweeper/service.py:866-872 | a trade whose timer has finished is closed for a failed cancel if and only if its cancel was answered with a failure |
| EntryOutcome.ClosesAtAnswer | backend/src/strategy_follow_weather_sweeper/service.py:845-905 | with no poll in flight when the timer fires, a trade that its entry closes holds what was announced at the answer, and nothing when closed for want of a fill |
| EntryOutcome.StoppedExactly | backend/src/strategy_follow_weather_sweeper/service.py:214-231 | after the stop of the risk monitor the trade closes, unless a completing fill has cancelled the timer's task and the monitor has passed that on |
| EntryOutcome.ClosingMovesNothing | backend/src/strategy_follow_weather_sweeper/service.py:1935-1964 | closing changes neither position nor cost nor the order id |
| EntryOutcome.ClosesOnce | backend/src/strategy_follow_weather_sweeper/service.py:1935-1944 | a trade closes for the first reason given |
| EntryOutcome.ClosedStays | backend/src/strategy_follow_weather_sweeper/service.py:833-836 | no later callback changes a trade that its entry has closed |
| SellExit.FillsAreRecorded | backend/src/strategy_follow_weather_sweeper/service.py:1313-1330 | consecutive fills are recorded share for share and known to the order's match |
| SellExit.UpdateKeepsBooks | backend/src/strategy_follow_weather_sweeper/service.py:1313-1352 | one fill or cancel moves position, shares sold and revenue by what it newly matches, and ends the wait exactly on completion or cancel |
| SellExit.WaitingIsExact | backend/src/strategy_follow_weather_sweeper/service.py:1216-1265 | against every honest sequence of an order's updates, all of them run, the callbacks book exactly the shares matched, at the prices they were matched at, and the wait is over if and only if the order was matched in full or cancelled |
| SellExit.CancelOvertakesFills | backend/src/framework/user_ws.py:288-303 | when a cancel overtakes waiting fill callbacks of an order, filled in part before or not, and reports at least what they stand for, the trade records the exchange's match if and only if none was waiting; the waiting shares are recorded twice |
| SellExit.CancelCountsTwice | backend/src/framework/user_ws.py:288-303 | one waiting fill of 4 shares and a cancel reporting 4 make 8 shares sold |
| SellExit.LateIsOnTop | backend/src/strategy_follow_weather_sweeper/service.py:1313-1352 | however an order's callbacks mix with fill callbacks that come after its cancel or belong to other orders, the books gain what the exchange reported of it plus all late shares, and these are zero only if there are none |
| SellExit.CentsRoundDown | backend/src/strategy_follow_weather_sweeper/service.py:471-471 | quantizing to 0.01 cuts off less than a cent, toward zero, and fixes whole cents |
| SellExit.SellableExactly | backend/src/strategy_follow_weather_sweeper/service.py:454-471 | what the balance error leaves to sell is the balance less the matched orders, in shares, cut to whole cents; nothing without a balance or with nothing left |
| SellExit.WokenExactly | backend/src/strategy_follow_weather_sweeper/service.py:1313-1352 | a wait is over if and only if one of the callbacks so far was a cancel, left no position, or filled an order to its size |
| SellExit.KnownIsLargest | backend/src/strategy_follow_weather_sweeper/service.py:1316-1319 | whatever the order of the fills, the match known of their order is the largest total announced |
| SellAttempts.RetryIsLess | backend/src/strategy_follow_weather_sweeper/service.py:1072-1081 | a zero-wait retry is a whole number of cents below the refused size; with a position that is not negative it is not negative either, and not below the minimum when the refused size was within the position |
| SellAttempts.BookedIsMatched | backend/src/strategy_follow_weather_sweeper/service.py:1194-1265 | of an honest answer the trade books exactly what the exchange matched and paid, within the order |
| SellAttempts.NeverOversells | backend/src/strategy_follow_weather_sweeper/service.py:1027-1268 | against an honest exchange every attempt of a lawful log offers a positive size within the position, what is sold never exceeds the starting position, and shares and revenue are what the exchange matched and paid |
| SellAttempts.NormalExitExactly | backend/src/strategy_follow_weather_sweeper/service.py:1256-1268 | a trade that neither broke off nor rests on an order closes with normal_exit if and only if everything was sold |
| SellAttempts.LateIsBooked | backend/src/strategy_follow_weather_sweeper/service.py:1194-1265 | an attempt books what the exchange reported of its order and the shares of callbacks that came late |
| SellAttempts.LateSharesOnTop | backend/src/strategy_follow_weather_sweeper/service.py:1216-1352 | over any log the books are what the exchange reported of the orders plus all late shares, so the two agree if and only if no fill callback came late |
| SellAttempts.BurstIsBounded | backend/src/strategy_follow_weather_sweeper/service.py:1072-1093 | with a positive minimum and against every exchange, consecutive zero-wait retries under which no callback runs each lose at least a cent, never fall below the minimum and number at most (position - minimum) / 0.01 + 1 |
| SellAttempts.NoisyBurst | backend/src/strategy_follow_weather_sweeper/service.py:1072-1093 | with a positive minimum, whatever callbacks run, retries above zero lose a cent each, and consecutive zero-wait retries are fewer than start / 0.01 + 1 plus the orders that callbacks ran under |
| SellAttempts.BurstWithCallbacks | backend/src/strategy_follow_weather_sweeper/service.py:1072-1093 | with a minimum of at least a cent they are, whatever callbacks run, fewer than (start - minimum) / 0.01 + 3 |
| SellAttempts.CallbacksLengthenBursts | backend/src/strategy_follow_weather_sweeper/service.py:1072-1093 | a log with two retries in a row where no more than 1.5 would fit without callbacks |
| SellAttempts.LimitFollowsTick | backend/src/strategy_follow_weather_sweeper/service.py:1109-1145 | every attempt is limited at one minus the tick as last refreshed, after at most three refreshes for a refused tick |
| SellAttempts.AttemptTracks | backend/src/strategy_follow_weather_sweeper/service.py:1027-1145 | what the loop carries over after any answer and whatever callbacks is what the longer log says, or the trade ends as the log says |
| SellVerdicts.ClosesExactly | backend/src/strategy_follow_weather_sweeper/service.py:234-281 | a trade closes as dust if and only if it neither failed for good nor rests and holds more than nothing but less than the minimum; by a normal exit if and only if it then holds nothing; for a failure if and only if the tracker gives up, there is no agreed tick, or three ticks were refused before; as a parse error if and only if a matched reply had no amounts |
| SellVerdicts.AttemptsExactly | backend/src/strategy_follow_weather_sweeper/service.py:1027-1057 | every attempt offers the whole position, or the retry after a lagging balance, holds at least the minimum, and is limited at one minus the tick as the attempt before left it |
| SellVerdicts.RetriesExactly | backend/src/strategy_follow_weather_sweeper/service.py:1072-1081 | the loop tries again at once if and only if the minimum is known and met and less is left than was offered; it then offers what is left of position and balance, cut to whole cents |
| SellVerdicts.OtherwiseSleeps | backend/src/strategy_follow_weather_sweeper/service.py:1094-1107 | without anything sellable in the error, or after another failure, it sleeps |
| SellVerdicts.EndedIsForgotten | backend/src/strategy_follow_weather_sweeper/service.py:1202-1239 | an order that was complete at once or whose wait is over is known no longer |
| SellVerdicts.NeverBelowLimit | backend/src/strategy_follow_weather_sweeper/service.py:1194-1265 | against an honest exchange that executes at the limit or better, the revenue is at least the shares sold at the lowest limit |
| SellVerdicts.LimitStandsIn | backend/src/strategy_follow_weather_sweeper/service.py:54-66 | where the exchange names no price, or only the limit, what an attempt brings in is the shares matched at the limit |
| SweepTrade.Trade.RecordBuyFill | backend/src/strategy_follow_weather_sweeper/service.py:785-789 | a fill adds its shares and its cost |
| SweepTrade.Trade.OnBuyFill | backend/src/strategy_follow_weather_sweeper/service.py:833-843 | the fill callback does to the trade what the state machine says and reports completion |
| SweepTrade.Trade.FinishEntryTimeout | backend/src/strategy_follow_weather_sweeper/service.py:858-905 | the timeout, once the cancel is answered, does to the trade what the state machine says, and says why it is to be closed, if it is |
| SweepTrade.Trade.RecordSellFill | backend/src/strategy_follow_weather_sweeper/service.py:1270-1276 | a sale moves shares from position to sold and adds its revenue |
| SweepTrade.Trade.HandleSellFill | backend/src/strategy_follow_weather_sweeper/service.py:1313-1330 | the SELL fill callback updates match, books and the end of the wait as the book functions say, and leaves a closed trade alone |
| SweepTrade.Trade.HandleSellCancel | backend/src/strategy_follow_weather_sweeper/service.py:1332-1352 | the SELL cancel callback books only what was not known and forgets the order |
| SweepTrade.Trade.HandleCalls | backend/src/strategy_follow_weather_sweeper/service.py:1313-1352 | the callbacks that run at one await change the books one after the other |
| SweepTrade.Trade.AwaitSell | backend/src/strategy_follow_weather_sweeper/service.py:1216-1239 | waiting on a live order books all callbacks that run before the loop wakes, in their order, those after the one that ended the wait included, and says whether it woke |
| SweepTrade.Trade.FollowSell | backend/src/strategy_follow_weather_sweeper/service.py:1171-1265 | the books become what an accepted order's answer and callbacks make of them; the order id is held exactly while the order rests |
| SweepTrade.Trade.TryToSell | backend/src/strategy_follow_weather_sweeper/service.py:1031-1254 | one attempt, whatever the answer and whatever callbacks run while it is on its way, rests or sleeps, extends the lawful log and leaves the books in step with it, or closes the trade as the log says |
| SweepTrade.Trade.SellLoop | backend/src/strategy_follow_weather_sweeper/service.py:1027-1268 | against every exchange and whatever callbacks run at the awaits, the loop's log is lawful, the books are what the log makes of them, and the trade closes if and only if and as the log says; callbacks that run while the risk monitor stops are booked on top; a position at or above the minimum is offered |
| SweepTrade.Trade.StartNormalExit | backend/src/strategy_follow_weather_sweeper/service.py:954-1268 | a closed, exiting, empty or still buying trade is left alone; without tick agreement it closes with nothing sent; otherwise it sells lawfully, and sends nothing at all if and only if the position is below the minimum |
| SellFeed.HistoryFeedsConsecutively | backend/src/framework/user_ws.py:314-425 | every history of a watched order within its size feeds the selling loop consecutive fills that end at the final match, the hypothesis of `SellAttempts.NeverOversells` on an order |
| BalancePoller.GrantFits | backend/src/framework/strategy_runtime/balance_poller.py:151-171 | a grant is within the request, not below the minimum, and its cost fits in the available cash |
| BalancePoller.GrantIsLargest | backend/src/framework/strategy_runtime/balance_poller.py:151-171 | a positive grant is the request, or whole shares of which one more would not fit in balance - locked - reserved - buffer; nothing is granted only if the request is below the minimum or no positive whole number of shares from the minimum on fits |
| BalancePoller.ReleaseStopsAtZero | backend/src/framework/strategy_runtime/balance_poller.py:143-149 | a release gives back all it is for, and no more than is reserved |
| BalancePoller.LocksNothing | backend/src/framework/strategy_runtime/balance_poller.py:213-221 | a SELL, or an order matched in full, locks nothing, wherever it stands among the orders |
| BalancePoller.FillUnlocks | backend/src/framework/strategy_runtime/balance_poller.py:213-221 | a fresh BUY locks its whole cost, and each share matched unlocks its price |
| BalancePoller.Poller.ReserveBuyShares | backend/src/framework/strategy_runtime/balance_poller.py:151-171 | reserving returns the grant and adds exactly its cost to the counter, or changes nothing |
| BalancePoller.Poller.ReleaseBuy | backend/src/framework/strategy_runtime/balance_poller.py:143-149 | releasing subtracts the notional, not below zero |
| BalancePoller.Poller.PollBalanceAndOrders | backend/src/framework/strategy_runtime/balance_poller.py:195-232 | the loop over open orders locks price times remaining size of the BUYs; a failed half keeps its old figure |
| Reservations.ClampNeverBites | backend/src/framework/strategy_runtime/balance_poller.py:146-149 | a release gives back exactly what was reserved |
| Reservations.StepIsExact | backend/src/strategy_follow_weather_sweeper/service.py:547-634 | every step of every trade keeps the counter equal to the unreleased grants and within the snapshot's cash |
| Reservations.EntersExactly | backend/src/strategy_follow_weather_sweeper/service.py:547-572 | a trade goes on to its BUY if and only if five whole shares were asked for and fit in the available cash, and then for the request or as many whole shares as fit; otherwise it ends without cash, having reserved nothing |
| Reservations.EndsRelease | backend/src/strategy_follow_weather_sweeper/service.py:594-634 | a refused BUY, one that raised an error, and the end of a settlement each give the reservation back at once and end the trade; an accepted BUY keeps it until then |
| Reservations.AllIsReleased | backend/src/strategy_follow_weather_sweeper/service.py:547-634 | in every run, when no trade is at its BUY or settling, nothing is reserved |
| Reservations.NoDoubleSpend | backend/src/strategy_follow_weather_sweeper/service.py:547-634 | under every interleaving of any number of trades the counter is the sum of unreleased grants, each grant is released exactly once on the accepted, refused and failing path, and grants never exceed max(0, balance - locked - buffer) while the snapshot stands |
| OrderReplies.ReplyIsExact | backend/src/framework/strategy_runtime/order_executor.py:534-569 | parsed size times execution price is the money in the reply on either side; partial if and only if filled is below the order size, filled if and only if it is not, live if and only if the reply is, and failed otherwise |
| OrderReplies.SidesAreRead | backend/src/framework/strategy_runtime/order_executor.py:534-569 | a matched BUY gets the taken amount as shares for the made amount of money, a SELL the other way round, and either fails without both |
| OrderReplies.OneOrderIsExact | backend/src/strategy_follow_weather_sweeper/service.py:54-66 | one reply moves entry cost or exit revenue by exactly the money in it |
| OrderReplies.MoneyIsExact | backend/src/strategy_follow_weather_sweeper/service.py:1958-1962 | over any run of replies entry cost is money paid, exit revenue money received, and the closing profit their difference, given if and only if both are positive |
| TradeProfit.Sell | frontend/src/components/TradeScatterChart.tsx:267-276 | the inner loop takes the sold quantity off the front of the queue and gains its proceeds over what those lots cost |
| TradeProfit.Settle | frontend/src/components/TradeScatterChart.tsx:264-276 | one deal keeps the queue equal to the lots bought less the shares matched from the front, and the realized profit equal to what those shares brought in over what they cost |
| TradeProfit.MatchTrades | frontend/src/components/TradeScatterChart.tsx:257-277 | the outer loop keeps that over all rows, skipping rows without quantity or price |
| TradeProfit.ValueLots | frontend/src/components/TradeScatterChart.tsx:279-284 | the unrealized part is the remaining inventory at mid minus what it cost |
| TradeProfit.SortIsStable | frontend/src/components/TradeScatterChart.tsx:256-256 | the sorted rows are the rows, in time order, and rows of one moment keep their order |
| TradeProfit.CalcProfit | frontend/src/components/TradeScatterChart.tsx:255-287 | over the rows in time order, realized is matched proceeds minus what the first shares bought cost; the total is that, or with a mid price matched proceeds minus all purchases plus remaining inventory at mid |
| TradeProfit.TotalIsLotFree | frontend/src/components/TradeScatterChart.tsx:271-286 | the identity behind it, for every queue that holds what is left of the lots |
| ProfitColumns.OtherColumnsDoNotMatter | frontend/src/components/TradeScatterChart.tsx:261-262 | the follower's figures are the same whatever the leader's columns hold in any row, and the reverse |
| ProfitColumns.IdleRowChangesNothing | frontend/src/components/TradeScatterChart.tsx:263-263 | a row without a positive quantity, or with a missing or zero price, in the columns looked at changes no figure, wherever it stands |
| ProfitColumns.BuyThenSell | frontend/src/components/TradeScatterChart.tsx:264-276 | BUY q at one price, then SELL q at another realizes q times the difference, in the chosen columns |
| ProfitColumns.FirstLotFirst | frontend/src/components/TradeScatterChart.tsx:267-275 | of two purchases the first is the one that is sold |
| ProfitColumns.BuyAndHold | frontend/src/components/TradeScatterChart.tsx:279-286 | what is bought and kept realizes nothing and totals the mid price over what it cost |
| SignalPaging.PageLaws | backend/src/signal_weather_orderbook/api.py:152-163 | a page holds due signals in order, from the first on; with a next cursor all other due rows come after it, without one none is left out |
| SignalPaging.RecentAreFirst | backend/src/signal_weather_orderbook/dao.py:232-270 | a query gives the first of the wanted rows in order, as many as asked for but at least 1 and at most 501 |
| SignalPaging.CrawlIsFaithful | backend/src/signal_weather_orderbook/dao.py:232-270 | from any cursor on, following pages keeps order, due rows and completeness while rows are being added |
| SignalPaging.PagingIsStable | backend/src/signal_weather_orderbook/api.py:157-163 | while rows are being added no signal is shown twice, signals come in descending time and, within one time, descending id, and every signal present at the first request is shown by the end |
| SignalPaging.NextPageContinues | backend/src/signal_weather_orderbook/dao.py:251-266 | on a fixed table a page followed by what its cursor still selects is what the old cursor selected |
| SignalPaging.PagingIsComplete | backend/src/signal_weather_orderbook/api.py:157-163 | on a fixed table paging ends within as many pages as the rows need and concatenates to all matching signals exactly once in descending order |
| InstancePool.Pool.constructor | backend/src/framework/instance_pool.py:38-48 | a pool starts with nothing running |
| InstancePool.Pool.StartOne | backend/src/framework/instance_pool.py:111-118 | a created instance runs under its id at its version; a failing create changes nothing |
| InstancePool.Pool.StopOne | backend/src/framework/instance_pool.py:120-127 | the instance is taken out and destroyed once |
| InstancePool.Pool.StopUnconfigured | backend/src/framework/instance_pool.py:79-82 | exactly the ids without a configuration are stopped and listed |
| InstancePool.Pool.FollowOne | backend/src/framework/instance_pool.py:84-92 | one id is started, restarted or kept as its version demands |
| InstancePool.Pool.Reload | backend/src/framework/instance_pool.py:72-96 | afterwards each running id is configured and at its configured version, unchanged ones are the same instances, the started ids are those that did not run and the reloaded ones those that ran at another version, and every instance ever created runs or was destroyed once |
| InstancePool.Pool.ReloadInStep | backend/src/framework/instance_pool.py:72-96 | a reload of a pool in step with its configurations changes nothing |
| InstancePool.Pool.Start | backend/src/framework/instance_pool.py:65-70 | the first start brings the pool in step when every create succeeds, and accounts for every instance in any case |
| InstancePool.Pool.StopAll | backend/src/framework/instance_pool.py:98-102 | after shutdown every instance ever created has been destroyed, once |
| InstancePool.NothingToChange | backend/src/framework/instance_pool.py:84-92 | with every configured id at its version no change is listed |
| InstancePool.StartedExactly | backend/src/framework/instance_pool.py:84-87 | a configured id is listed as started if and only if it did not run before |
| InstancePool.RestartedExactly | backend/src/framework/instance_pool.py:88-92 | it is listed as reloaded if and only if it ran at another version |
| InstancePool.ConfiguredExactly | backend/src/framework/instance_pool.py:76-82 | an id is stopped or kept by whether it is the id of some configuration |

## Left out

- Parsing, the function-signature checks of `compile`, error positions, script length, and the check of regular expressions: the model starts from the AST of the body.
- What CPython's operators, attributes and builtins do is shared between interpreter and reference, as the parameter that it is; values that are not integers, booleans, strings, None, floats, lists, tuples or ranges are opaque and taken to have no in-place operators.
- `SlugTheorems.UnstoppedRunIsPython`: what Python does after a list was updated in place is not modelled; the rules stop there with a mark, as they do at a called local and at a global taken for a value. A `break` outside every loop, which CPython's compiler refuses, completes the block in the rules.
- `SlugStatic.TameAnswersAsPython`: the check on the text is sufficient, not necessary; it takes `+=` and `-=` on names that are otherwise assigned constants only.
- The rules in `PythonSemantics` cover the statement forms that the whitelist admits.
- JSON decoding, socket lifecycle and heartbeats of the user channel; callbacks are always registered. Queries over REST are the boundaries between method calls.
- CPython's recursion limit: a sum of several hundred terms inside nested blocks can pass the check on the syntax tree, whose calls nest less deeply, and raise RecursionError in `_eval` where compiled Python returns. Evaluation here has no depth limit.
- Risk exit, force exit, orphan recovery and the exit part of the state machine: `BuyEntry` covers a trade from the accepted BUY to the end of its entry; an exit that starts while a failed entry waits for the risk monitor to stop is not followed. Wall-clock time is left out; the timer fires at any moment.
- `SweepTrade.Trade.SellLoop`: covers any finite number of attempts of a run that may go on forever; the callbacks of an await are part of the exchange's answer, in any order and number, and verdicts of `SellFailureTracker`, minimum size and tick agreement are arbitrary inputs. The trade is not closed from outside, and callbacks of the BUY do not run, while the loop sells. A reply without fill amounts counts as nothing sold.
- `SellAttempts.NeverOversells`: assumes that no fill exceeds its order, that nothing follows an order's cancel and that no fill callback comes late, neither at an order's cancel nor while another order is on its way or the loop sleeps; `SellAttempts.LateSharesOnTop` says what happens without the last assumption.
- `SellAttempts.BurstIsBounded`: speaks of bursts under which no callback runs; `SellAttempts.NoisyBurst` speaks of all.
- `Reservations.NoDoubleSpend`: the bound by the snapshot's cash holds until the next snapshot, which may be lower; the 1.2 second hold is an event, and a release task cancelled before its first step is not modelled.
- `OrderReplies.MoneyIsExact`: prices are exact quotients; rounding of `Decimal` division to 28 digits is not modelled.
- `TradeProfit.CalcProfit`: takes JavaScript numbers as reals and times as integers.
- `SignalPaging.PagingIsStable`: tables are written in query order, as the SQL text selects them; building the text, and the event route with its cache, are left out.
- `InstancePool.Pool.Reload`: the order in which a dictionary lists its keys is an argument; two configurations with the same id are excluded.
- The order book and its subscription index, the sibling weather sweep service (the same entry and exit loop without reservations), `TickVerifier`, the risk monitor, event logging, trade summaries, storage and all other user interface code.
