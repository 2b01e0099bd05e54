/** Safety of the resting BUY over every run, and the one race that breaks it. */
module BuyEntryLaws {
  import opened Prelude
  import opened Fifo
  import opened FillAccounting
  import opened FillLaws
  import opened BuyEntry

  // Shares in callbacks that have not run.
  function Queued(ready: seq<Task>): real {
    if ready == [] then 0.0
    else (if ready[0].Deliver? then ready[0].fill.size else 0.0) + Queued(ready[1..])
  }

  // Of those, the shares behind the answer to the cancel.
  function Behind(ready: seq<Task>): real {
    if ready == [] then 0.0
    else if ready[0].Resume? then Queued(ready[1..])
    else Behind(ready[1..])
  }

  function Resumes(ready: seq<Task>): nat {
    if ready == [] then 0 else (if ready[0].Resume? then 1 else 0) + Resumes(ready[1..])
  }

  // Every waiting fill is positive and announces the position that it will bring about.
  predicate Announced(position: real, ready: seq<Task>)
    decreases |ready|
  {
    ready == [] ||
    if ready[0].Resume? then Announced(position, ready[1..])
    else
      && ready[0].fill.size > 0.0
      && ready[0].fill.total == position + ready[0].fill.size
      && Announced(position + ready[0].fill.size, ready[1..])
  }

  predicate AllPositive(ready: seq<Task>) {
    forall k :: 0 <= k < |ready| && ready[k].Deliver? ==> ready[k].fill.size > 0.0
  }

  lemma {:induction false} EnqueueFill(position: real, ready: seq<Task>, fill: Fill)
    requires fill.size > 0.0
    ensures Queued(ready + [Deliver(fill)]) == Queued(ready) + fill.size
    ensures Resumes(ready + [Deliver(fill)]) == Resumes(ready)
    ensures Behind(ready + [Deliver(fill)]) == Behind(ready) + if Resumes(ready) > 0 then fill.size else 0.0
    ensures Announced(position, ready) && fill.total == position + Queued(ready) + fill.size ==>
            Announced(position, ready + [Deliver(fill)])
    decreases |ready|
  {
    var more := ready + [Deliver(fill)];
    if ready == [] {
      assert more[1..] == [];
    } else {
      assert more[0] == ready[0] && more[1..] == ready[1..] + [Deliver(fill)];
      var next := position + if ready[0].Deliver? then ready[0].fill.size else 0.0;
      EnqueueFill(next, ready[1..], fill);
    }
  }

  lemma {:induction false} EnqueueFills(position: real, ready: seq<Task>, fills: seq<Fill>)
    requires Announced(position, ready) && Resumes(ready) == 0
    requires RunningTotals(position + Queued(ready), fills)
    ensures Announced(position, ready + Deliveries(fills))
    ensures Queued(ready + Deliveries(fills)) == Queued(ready) + Size(fills)
    ensures Resumes(ready + Deliveries(fills)) == 0
    decreases |fills|
  {
    if fills == [] {
      assert ready + [] == ready;
    } else {
      hide RunningTotals, Announced, Queued, Resumes, SumBy;
      RunningTail(position + Queued(ready), fills);
      EnqueueFill(position, ready, fills[0]);
      EnqueueFills(position, ready + [Deliver(fills[0])], fills[1..]);
      DeliveriesAfterOne(ready, fills);
    }
  }

  lemma DeliveriesAfterOne(ready: seq<Task>, fills: seq<Fill>)
    requires fills != []
    ensures ready + Deliveries(fills) == ready + [Deliver(fills[0])] + Deliveries(fills[1..])
    ensures Size(fills) == fills[0].size + Size(fills[1..])
  {
  }

  lemma {:induction false} EnqueueAnswer(position: real, ready: seq<Task>, answer: Task)
    requires answer.Resume? && Resumes(ready) == 0
    ensures Queued(ready + [answer]) == Queued(ready)
    ensures Resumes(ready + [answer]) == 1 && Behind(ready + [answer]) == 0.0
    ensures Announced(position, ready) ==> Announced(position, ready + [answer])
    decreases |ready|
  {
    var more := ready + [answer];
    if ready == [] {
      assert more[1..] == [];
    } else {
      assert more[0] == ready[0] && more[1..] == ready[1..] + [answer];
      EnqueueAnswer(position + ready[0].fill.size, ready[1..], answer);
    }
  }

  // ---- The invariant ----

  // Nothing is lost between the watch and the trade.
  ghost predicate Balanced(s: System) {
    s.trade.position + Queued(s.ready) == s.watch.last && Announced(s.trade.position, s.ready)
  }

  // A cancel that went through and found the order in a final state reports the final match.
  predicate FinalAnswers(s: System) {
    forall k :: 0 <= k < |s.ready| && s.ready[k].Resume? && s.ready[k].cancelled && s.ready[k].finalMatched.Some? ==>
      !s.live && s.ready[k].finalMatched.value == s.matched
  }

  ghost predicate Inv(s: System) {
    && AllPositive(s.ready) && Positive(s.watch.pending) && FinalAnswers(s)
    && 0.0 <= s.trade.position && 0.0 <= s.watch.last <= s.matched <= s.trade.orderSize
    && (s.watched ==> s.timer == Sleeping)
    && match s.timer
       case Sleeping => s.trade.closed.None? && Resumes(s.ready) == 0 && Balanced(s)
       case Cancelling => s.trade.closed.None? && Resumes(s.ready) == 0 && Balanced(s)
       case Answered(a) =>
         && s.trade.closed.None? && Resumes(s.ready) == 1 && Balanced(s)
         && Behind(s.ready) == s.watch.last - a
       case Stopping(a, known, reason, cancelled) =>
         && s.trade.closed.None? && Resumes(s.ready) == 0 && Balanced(s)
         && a <= s.trade.position
         && (cancelled ==> s.trade.position == s.trade.orderSize)
         && (known ==> !s.live && reason == TimeoutNoFill && s.matched == 0.0)
       case Aborted =>
         && s.trade.closed.None? && Queued(s.ready) == 0.0
         && s.trade.position == s.trade.orderSize == s.watch.last
       case Finished(a, known) =>
         && Resumes(s.ready) == 0 && a <= s.watch.last
         && (known ==> !s.live)
         && (s.trade.closed.None? ==>
             s.trade.position + Queued(s.ready) == if known then s.matched + (s.watch.last - a) else s.watch.last)
         && (s.trade.closed.Some? && known ==> s.trade.closed.value == TimeoutNoFill && s.matched == 0.0)
  }

  lemma {:induction false} QueuedPositive(ready: seq<Task>)
    requires AllPositive(ready)
    ensures Queued(ready) >= 0.0
    ensures Queued(ready) == 0.0 <==> forall k :: 0 <= k < |ready| ==> ready[k].Resume?
  {
    if ready != [] {
      assert AllPositive(ready[1..]) by {
        assert forall k :: 0 <= k < |ready[1..]| ==> ready[1..][k] == ready[k + 1];
      }
      QueuedPositive(ready[1..]);
      assert forall k :: 1 <= k < |ready| ==> ready[k] == ready[1..][k - 1];
    }
  }

  lemma UpdateKeepsInv(s: System, m: real)
    requires Inv(s) && Enabled(s, Update(m))
    ensures Inv(Next(s, Update(m)))
  {
    hide Drain, Skip, Total, Cost, Announced, Queued, Resumes, Behind, RunningTotals;
    if s.watched && m > s.watch.last {
      var w := s.watch;
      var fills := OnReport(w, m).1;
      TotalIsPositive(w.pending);
      var q := Min(m - w.last, Total(w.pending));
      ReportTakes(w, m, q);
      DrainSizes(w.price, m, m - w.last, w.pending);
      SkipKeepsRest(w.pending, q);
      EnqueueFills(s.trade.position, s.ready, fills);
      DeliveriesPositive(w.last, fills);
      assert Next(s, Update(m)).ready == s.ready + Deliveries(fills);
    } else {
      assert s.ready + [] == s.ready;
    }
  }

  lemma {:induction false} DeliveriesPositive(base: real, fills: seq<Fill>)
    requires RunningTotals(base, fills)
    ensures |Deliveries(fills)| == |fills|
    ensures forall k :: 0 <= k < |fills| ==> Deliveries(fills)[k] == Deliver(fills[k]) && fills[k].size > 0.0
    decreases |fills|
  {
    if fills != [] {
      RunningTail(base, fills);
      DeliveriesPositive(base + fills[0].size, fills[1..]);
    }
  }

  lemma PollEndKeepsInv(s: System, m: real)
    requires Inv(s) && Enabled(s, PollEnds(m))
    ensures Inv(Next(s, PollEnds(m)))
  {
    if m > s.watch.last {
      var fill := OnReconnect(s.watch, m).1[0];
      assert Deliveries([fill]) == [Deliver(fill)];
      EnqueueFill(s.trade.position, s.ready, fill);
    } else {
      assert s.ready + [] == s.ready;
    }
  }

  lemma AnswerKeepsInv(s: System, cancelled: bool, queried: bool)
    requires Inv(s) && Enabled(s, CancelAnswers(cancelled, queried))
    ensures Inv(Next(s, CancelAnswers(cancelled, queried)))
  {
    EnqueueAnswer(s.trade.position, s.ready, Resume(cancelled, if queried then Some(s.matched) else None));
  }

  // The fill that brings the announced total to the order size ends the entry.
  lemma CompletionKeepsInv(s: System)
    requires Inv(s) && s.ready != [] && s.ready[0].Deliver? && Completes(s.trade, s.ready[0].fill)
    requires !s.timer.Finished?
    ensures Inv(Next(s, RunNext))
  {
    var rest := s.ready[1..];
    assert forall k :: 0 <= k < |rest| ==> rest[k] == s.ready[k + 1];
    QueuedPositive(s.ready);
    QueuedPositive(rest);
  }

  lemma DeliverKeepsInv(s: System)
    requires Inv(s) && s.ready != [] && s.ready[0].Deliver?
    requires Completes(s.trade, s.ready[0].fill) ==> s.timer.Finished?
    ensures Inv(Next(s, RunNext))
  {
    var rest := s.ready[1..];
    assert forall k :: 0 <= k < |rest| ==> rest[k] == s.ready[k + 1];
    QueuedPositive(s.ready);
  }

  lemma ResumeKeepsInv(s: System)
    requires Inv(s) && s.ready != [] && s.ready[0].Resume?
    ensures Inv(Next(s, RunNext))
  {
    var rest := s.ready[1..];
    assert forall k :: 0 <= k < |rest| ==> rest[k] == s.ready[k + 1];
    QueuedPositive(rest);
  }

  lemma StopKeepsInv(s: System, swallowed: bool)
    requires Inv(s) && s.timer.Stopping?
    ensures Inv(Next(s, RiskStopped(swallowed)))
  {
    QueuedPositive(s.ready);
  }

  lemma MoveKeepsInv(s: System, move: Move)
    requires Inv(s) && Enabled(s, move)
    ensures Inv(Next(s, move))
  {
    match move {
      case Match(q) =>
      case Update(m) => UpdateKeepsInv(s, m);
      case TradeMessage(_, _, _) =>
      case PollStarts =>
      case PollEnds(m) => PollEndKeepsInv(s, m);
      case TimerFires =>
      case CancelTakesEffect =>
      case CancelAnswers(cancelled, queried) => AnswerKeepsInv(s, cancelled, queried);
      case RiskStopped(swallowed) => StopKeepsInv(s, swallowed);
      case RunNext =>
        if s.ready[0].Resume? {
          ResumeKeepsInv(s);
        } else if Completes(s.trade, s.ready[0].fill) && !s.timer.Finished? {
          CompletionKeepsInv(s);
        } else {
          DeliverKeepsInv(s);
        }
    }
  }

  lemma {:induction false} RunKeepsInv(s: System, moves: seq<Move>)
    requires Inv(s) && Playable(s, moves)
    ensures Inv(Play(s, moves))
    decreases |moves|
  {
    if moves != [] {
      MoveKeepsInv(s, moves[0]);
      RunKeepsInv(Next(s, moves[0]), moves[1..]);
    }
  }

  // ---- Main theorems ----

  /** In every run: while the BUY is watched, the position plus the fills still waiting in
      the event loop is the watch's cumulative match, which never exceeds the exchange's. */
  lemma WatchedIsBalanced(size: real, filled: real, price: real, cost: real, matched: real, moves: seq<Move>)
    requires 0.0 <= filled <= matched <= size
    requires Playable(Start(size, filled, price, cost, matched), moves)
    ensures var s := Play(Start(size, filled, price, cost, matched), moves);
            s.watched ==> s.trade.position + Queued(s.ready) == s.watch.last <= s.matched
  {
    RunKeepsInv(Start(size, filled, price, cost, matched), moves);
  }

  // The entry timeout has run, its query succeeded and no fill is waiting.
  predicate Settled(s: System) {
    s.timer.Finished? && s.timer.known && forall k :: 0 <= k < |s.ready| ==> s.ready[k].Resume?
  }

  /** In every run: once the timeout has settled, the position is the exchange's final match
      exactly when no reconnect poll moved the watch after the cancel was answered; what
      such a poll adds is counted a second time. A trade closed without a fill had none. */
  lemma SettledExactly(size: real, filled: real, price: real, cost: real, matched: real, moves: seq<Move>)
    requires 0.0 <= filled <= matched <= size
    requires Playable(Start(size, filled, price, cost, matched), moves)
    ensures var s := Play(Start(size, filled, price, cost, matched), moves);
            Settled(s) ==>
              if s.trade.closed.Some? then s.trade.closed.value == TimeoutNoFill && s.matched == 0.0
              else
                && s.trade.position == s.matched + (s.watch.last - s.timer.atAnswer)
                && s.timer.atAnswer <= s.watch.last
  {
    var s := Play(Start(size, filled, price, cost, matched), moves);
    RunKeepsInv(Start(size, filled, price, cost, matched), moves);
    QueuedPositive(s.ready);
  }

  predicate AnsweredAt(timer: Timer, last: real) {
    timer.Answered? || timer.Stopping? || timer.Finished? ==> timer.atAnswer == last
  }

  // An unwatched order without a poll in flight is out of reach of every report.
  lemma {:induction false} WatchIsFrozen(s: System, moves: seq<Move>)
    requires !s.watched && !s.polling && s.timer != Sleeping && AnsweredAt(s.timer, s.watch.last)
    requires Playable(s, moves)
    ensures Play(s, moves).watch == s.watch && AnsweredAt(Play(s, moves).timer, s.watch.last)
    decreases |moves|
  {
    if moves != [] {
      WatchIsFrozen(Next(s, moves[0]), moves[1..]);
    }
  }

  /** If no reconnect poll is in flight when the timer fires, then under every interleaving
      of updates, callbacks, matches and the cancel the settled position is exactly what
      the exchange matched. */
  lemma TimeoutIsExact(s: System, moves: seq<Move>)
    requires Inv(s) && s.timer == Cancelling && !s.polling && Playable(s, moves)
    ensures var e := Play(s, moves);
            Settled(e) && e.trade.closed.None? ==> e.trade.position == e.matched
  {
    RunKeepsInv(s, moves);
    WatchIsFrozen(s, moves);
    QueuedPositive(Play(s, moves).ready);
  }

  // ---- The fills of an entry are those of its messages ----

  // What reaches the watch: updates and trades while the order is watched, and polls.
  function Messages(s: System, moves: seq<Move>): seq<FillAccounting.Event>
    decreases |moves|
  {
    if moves == [] then []
    else
      var rest := Messages(Next(s, moves[0]), moves[1..]);
      match moves[0]
      case Update(m) => (if s.watched then [Report(m)] else []) + rest
      case TradeMessage(id, size, price) => (if s.watched then [Trade(id, size, price)] else []) + rest
      case PollEnds(m) => [Poll(m)] + rest
      case _ => rest
  }

  // The watch and what it has sent, as a ledger with these accepted trades.
  function LedgerOf(s: System, accepted: seq<Lot>): Ledger {
    Ledger(s.watch, accepted, s.sent)
  }

  lemma MoveIsStep(s: System, move: Move, accepted: seq<Lot>)
    ensures match move
            case Update(m) =>
              LedgerOf(Next(s, move), accepted) ==
              if s.watched then Step(LedgerOf(s, accepted), Report(m)) else LedgerOf(s, accepted)
            case TradeMessage(id, size, price) =>
              var l := Step(LedgerOf(s, accepted), Trade(id, size, price));
              if s.watched then LedgerOf(Next(s, move), l.accepted) == l
              else LedgerOf(Next(s, move), accepted) == LedgerOf(s, accepted)
            case PollEnds(m) => LedgerOf(Next(s, move), accepted) == Step(LedgerOf(s, accepted), Poll(m))
            case _ => LedgerOf(Next(s, move), accepted) == LedgerOf(s, accepted)
  {
    hide Drain, OnCancelAnswer, OnBuyFill, Completes, Deliveries;
  }

  lemma {:induction false} PlayIsRun(s: System, moves: seq<Move>, accepted: seq<Lot>)
    ensures var l := Run(LedgerOf(s, accepted), Messages(s, moves));
            l.w == Play(s, moves).watch && l.fills == Play(s, moves).sent
    decreases |moves|
  {
    if moves != [] {
      var l, next, rest := LedgerOf(s, accepted), Next(s, moves[0]), Messages(Next(s, moves[0]), moves[1..]);
      MoveIsStep(s, moves[0], accepted);
      hide Next, Step;
      match moves[0] {
        case Update(m) =>
          PlayIsRun(next, moves[1..], accepted);
          assert s.watched ==> ([Report(m)] + rest)[1..] == rest;
          assert [] + rest == rest;
        case TradeMessage(id, size, price) =>
          PlayIsRun(next, moves[1..], if s.watched then Step(l, Trade(id, size, price)).accepted else accepted);
          assert s.watched ==> ([Trade(id, size, price)] + rest)[1..] == rest;
          assert [] + rest == rest;
        case PollEnds(m) =>
          PlayIsRun(next, moves[1..], accepted);
          assert ([Poll(m)] + rest)[1..] == rest;
        case Match(_) => PlayIsRun(next, moves[1..], accepted);
        case PollStarts => PlayIsRun(next, moves[1..], accepted);
        case TimerFires => PlayIsRun(next, moves[1..], accepted);
        case CancelTakesEffect => PlayIsRun(next, moves[1..], accepted);
        case CancelAnswers(_, _) => PlayIsRun(next, moves[1..], accepted);
        case RiskStopped(_) => PlayIsRun(next, moves[1..], accepted);
        case RunNext => PlayIsRun(next, moves[1..], accepted);
      }
    }
  }

  /** In every run the fills sent out are those that fill accounting makes of the messages that
      reached the watch, so all its laws hold of them: at trade prices in arrival order
      where trades cover the reports, at the limit elsewhere. */
  lemma EntryIsFillHistory(size: real, filled: real, price: real, cost: real, matched: real, moves: seq<Move>)
    ensures var s0 := Start(size, filled, price, cost, matched);
            var l := Run(Opening(price, filled), Messages(s0, moves));
            && Play(s0, moves).sent == l.fills && Play(s0, moves).watch == l.w && Sound(price, filled, l)
  {
    var s0 := Start(size, filled, price, cost, matched);
    EveryHistoryIsSound(price, filled, Messages(s0, moves));
    hide Play, Run, Sound, Messages;
    PlayIsRun(s0, moves, []);
  }

  // ---- At what cost ----

  // What the waiting fills will add to the entry cost.
  function QueuedValue(ready: seq<Task>): real {
    if ready == [] then 0.0
    else (if ready[0].Deliver? then ready[0].fill.size * ready[0].fill.price else 0.0) + QueuedValue(ready[1..])
  }

  // Shares that no fill stands for: the timeout found them in the cancel's answer.
  function Found(s: System, filled: real): real {
    s.trade.position + Queued(s.ready) - filled - Size(s.sent)
  }

  ghost predicate Costed(s: System, filled: real, cost: real) {
    s.trade.closed.None? ==>
      s.trade.entryCost + QueuedValue(s.ready) == cost + Value(s.sent) + AtLimit(Found(s, filled), s.trade.buyPrice)
  }

  function AtLimit(shares: real, price: real): real {
    shares * price
  }

  lemma {:induction false} DeliveriesAdd(ready: seq<Task>, fills: seq<Fill>)
    ensures Queued(ready + Deliveries(fills)) == Queued(ready) + Size(fills)
    ensures QueuedValue(ready + Deliveries(fills)) == QueuedValue(ready) + Value(fills)
    decreases |ready| + |fills|
  {
    if ready != [] {
      assert (ready + Deliveries(fills))[1..] == ready[1..] + Deliveries(fills);
      DeliveriesAdd(ready[1..], fills);
    } else if fills != [] {
      assert ready + Deliveries(fills) == Deliveries(fills);
      assert Deliveries(fills)[1..] == [] + Deliveries(fills[1..]);
      DeliveriesAdd([], fills[1..]);
    } else {
      assert ready + Deliveries(fills) == [];
    }
  }

  lemma AnswerAddsNothing(ready: seq<Task>, answer: Task)
    requires answer.Resume?
    ensures Queued(ready + [answer]) == Queued(ready) && QueuedValue(ready + [answer]) == QueuedValue(ready)
    decreases |ready|
  {
    if ready == [] {
      assert [answer][1..] == [];
    } else {
      assert (ready + [answer])[1..] == ready[1..] + [answer];
      AnswerAddsNothing(ready[1..], answer);
    }
  }

  lemma SendingKeepsCost(s: System, s': System, fills: seq<Fill>, filled: real, cost: real)
    requires Costed(s, filled, cost) && s'.trade == s.trade
    requires s'.sent == s.sent + fills && s'.ready == s.ready + Deliveries(fills)
    ensures Costed(s', filled, cost)
  {
    hide AtLimit, SumBy, Queued, QueuedValue, Deliveries;
    DeliveriesAdd(s.ready, fills);
    SumOfParts(SizeOf, s.sent, fills);
    SumOfParts(ValueOf, s.sent, fills);
    assert Found(s', filled) == Found(s, filled);
  }

  lemma DeliveryKeepsCost(s: System, filled: real, cost: real)
    requires Costed(s, filled, cost) && s.ready != [] && s.ready[0].Deliver?
    ensures Costed(Next(s, RunNext), filled, cost)
  {
    hide AtLimit, SumBy;
    var s' := Next(s, RunNext);
    if s.trade.closed.None? {
      assert Found(s', filled) == Found(s, filled);
    }
  }

  lemma ResumptionKeepsCost(s: System, filled: real, cost: real)
    requires Costed(s, filled, cost) && s.ready != [] && s.ready[0].Resume?
    ensures Costed(Next(s, RunNext), filled, cost)
  {
    var t, s' := s.trade, Next(s, RunNext);
    var found := s'.trade.position - t.position;
    assert s'.trade.closed.None? ==> s'.trade.entryCost == t.entryCost + AtLimit(found, t.buyPrice);
    LimitAdds(Found(s, filled), found, t.buyPrice);
    hide AtLimit, SumBy;
    assert Found(s', filled) == Found(s, filled) + found;
  }

  lemma LimitAdds(a: real, b: real, price: real)
    ensures AtLimit(a + b, price) == AtLimit(a, price) + AtLimit(b, price)
  {
  }

  lemma MoveKeepsCost(s: System, move: Move, filled: real, cost: real)
    requires Costed(s, filled, cost)
    ensures Costed(Next(s, move), filled, cost)
  {
    assert s.sent + [] == s.sent && s.ready + [] == s.ready;
    hide AtLimit, SumBy, Queued, QueuedValue;
    match move {
      case Update(m) => SendingKeepsCost(s, Next(s, move), if s.watched then OnReport(s.watch, m).1 else [], filled, cost);
      case PollEnds(m) => SendingKeepsCost(s, Next(s, move), OnReconnect(s.watch, m).1, filled, cost);
      case CancelAnswers(cancelled, queried) =>
        AnswerAddsNothing(s.ready, Resume(cancelled, if queried then Some(s.matched) else None));
      case RunNext =>
        if s.ready != [] {
          if s.ready[0].Deliver? {
            DeliveryKeepsCost(s, filled, cost);
          } else {
            ResumptionKeepsCost(s, filled, cost);
          }
        }
      case Match(_) =>
      case TradeMessage(_, _, _) =>
      case PollStarts =>
      case TimerFires =>
      case CancelTakesEffect =>
      case RiskStopped(_) =>
    }
  }

  lemma {:induction false} RunKeepsCost(s: System, moves: seq<Move>, filled: real, cost: real)
    requires Costed(s, filled, cost)
    ensures Costed(Play(s, moves), filled, cost)
    decreases |moves|
  {
    if moves != [] {
      MoveKeepsCost(s, moves[0], filled, cost);
      RunKeepsCost(Next(s, moves[0]), moves[1..], filled, cost);
    }
  }

  /** In every run an open trade's entry cost, with what is still queued, is what its first
      fill cost, plus every fill at its own price, plus, at the limit, only the shares that
      the timeout found and no fill stood for. */
  lemma EntryCostIsExact(size: real, filled: real, price: real, cost: real, matched: real, moves: seq<Move>)
    ensures var s := Play(Start(size, filled, price, cost, matched), moves);
            s.trade.closed.None? ==>
              s.trade.entryCost + QueuedValue(s.ready) == cost + Value(s.sent) + Found(s, filled) * s.trade.buyPrice
  {
    StartIsCosted(size, filled, price, cost, matched);
    hide Play, Start, Found, SumBy, QueuedValue;
    RunKeepsCost(Start(size, filled, price, cost, matched), moves, filled, cost);
  }

  lemma StartIsCosted(size: real, filled: real, price: real, cost: real, matched: real)
    ensures Costed(Start(size, filled, price, cost, matched), filled, cost)
  {
    assert AtLimit(0.0, price) == 0.0;
  }

  // ---- The race ----

  // A BUY of 10 shares at 0.99, nothing matched yet.
  const RACE_START := Start(10.0, 0.0, 0.99, 0.0, 0.0)

  // 4 shares have matched and a reconnect poll is under way when the timer fires; the
  // cancel's answer has just been accounted for.
  const RACE_ANSWERED := System(4.0, false, NewWatch(0.99, 0.0), false, true, [], [],
                                Holding(4.0, 3.96, 10.0, 0.99, false, None), Finished(0.0, true))

  lemma RaceToAnswer(late: seq<Move>) returns (moves: seq<Move>)
    requires Playable(RACE_ANSWERED, late)
    ensures Playable(RACE_START, moves) && Play(RACE_START, moves) == Play(RACE_ANSWERED, late)
  {
    hide Play, Playable, OnReport, OnTrade, OnReconnect, Deliveries, OnBuyFill, Completes, Close;
    var s1 := Next(RACE_START, Match(4.0));
    var s2 := Next(s1, PollStarts);
    var s3 := Next(s2, TimerFires);
    var s4 := Next(s3, CancelTakesEffect);
    var s5 := Next(s4, CancelAnswers(true, true));
    assert s5.ready == [Resume(true, Some(4.0))];
    assert Next(s5, RunNext) == RACE_ANSWERED;
    moves := PlayFirst(s5, RunNext, late);
    moves := PlayFirst(s4, CancelAnswers(true, true), moves);
    moves := PlayFirst(s3, CancelTakesEffect, moves);
    moves := PlayFirst(s2, TimerFires, moves);
    moves := PlayFirst(s1, PollStarts, moves);
    moves := PlayFirst(RACE_START, Match(4.0), moves);
  }

  /** The poll's own answer arrives last, and the 4 matched shares become a position of 8. */
  lemma LatePollCountsTwice() returns (moves: seq<Move>)
    ensures Playable(RACE_START, moves)
    ensures var s := Play(RACE_START, moves);
            Settled(s) && s.matched == 4.0 && s.trade.position == 8.0
  {
    var stale := Fill(4.0, 0.99, 4.0, None, ReconnectReconcile);
    assert [stale][1..] == [];
    assert Deliveries([stale]) == [Deliver(stale)];
    var s7 := Next(RACE_ANSWERED, PollEnds(4.0));
    assert s7.ready == [] + [Deliver(stale)] == [Deliver(stale)];
    var s8 := Next(s7, RunNext);
    assert s8.trade.position == 8.0 && s8.ready == [];
    moves := PlayFirst(s7, RunNext, []);
    moves := PlayFirst(RACE_ANSWERED, PollEnds(4.0), moves);
    moves := RaceToAnswer(moves);
  }

  lemma PlayFirst(s: System, move: Move, rest: seq<Move>) returns (moves: seq<Move>)
    requires Enabled(s, move) && Playable(Next(s, move), rest)
    ensures Playable(s, moves) && Play(s, moves) == Play(Next(s, move), rest)
  {
    moves := [move] + rest;
    assert moves[1..] == rest;
  }
}
