/** How an entry ends: when the BUY order is given up, when the trade may go on to sell, and
    why it closes otherwise. */
module EntryOutcome {
  import opened Prelude
  import opened FillAccounting
  import opened BuyEntry
  import opened BuyEntryLaws

  // What the entry timer says about the trade.
  ghost predicate Outcome(s: System, size: real) {
    && s.trade.orderSize == size
    && match s.timer
       case Sleeping => Entering(s.trade)
       case Cancelling => Entering(s.trade)
       case Answered(_) => Entering(s.trade)
       case Aborted => s.trade.closed.None? && !s.trade.entryOpen && s.trade.position == size > 0.0
       case Stopping(a, _, reason, cancelled) =>
         s.trade.closed.None? && Failing(s.trade, reason, a) && (cancelled <==> s.trade.position == size)
       case Finished(a, _) =>
         if s.trade.closed.Some? then Failing(s.trade, s.trade.closed.value, a)
         else !s.trade.entryOpen && s.trade.position > 0.0
  }

  // Closed, or about to be, for this reason, with the match at the cancel's answer.
  predicate Failing(t: Holding, reason: CloseReason, atAnswer: real) {
    && atAnswer <= t.position
    && (reason == BuyCancelFailed || reason == TimeoutNoFill)
    && (reason == BuyCancelFailed ==> (t.entryOpen <==> t.position < t.orderSize))
    && (reason == TimeoutNoFill ==> !t.entryOpen && atAnswer == 0.0)
  }

  predicate Entering(t: Holding) {
    t.closed.None? && t.entryOpen && t.position < t.orderSize
  }

  lemma DeliveryKeepsOutcome(s: System, size: real)
    requires Inv(s) && Outcome(s, size) && s.ready != [] && s.ready[0].Deliver? && size > 0.0
    ensures Outcome(Next(s, RunNext), size)
  {
    hide Inv, OnCancelAnswer;
    HeadAnnounces(s);
  }

  // The next fill announces the position that it brings about, within the order.
  lemma HeadAnnounces(s: System)
    requires Inv(s) && s.ready != [] && s.ready[0].Deliver?
    ensures s.ready[0].fill.size > 0.0 && !s.timer.Aborted?
    ensures !s.timer.Finished? ==> s.ready[0].fill.total == s.trade.position + s.ready[0].fill.size <= s.trade.orderSize
  {
    QueuedPositive(s.ready);
    QueuedPositive(s.ready[1..]);
  }

  lemma AnswerKeepsOutcome(s: System, size: real)
    requires Inv(s) && Outcome(s, size) && s.ready != [] && s.ready[0].Resume?
    ensures Outcome(Next(s, RunNext), size)
  {
    if s.timer.Answered? {
      assert s.trade.position == s.timer.atAnswer;
    }
  }

  lemma MoveKeepsOutcome(s: System, move: Move, size: real)
    requires Inv(s) && Outcome(s, size) && Enabled(s, move) && size > 0.0
    ensures Outcome(Next(s, move), size)
  {
    hide Inv, OnReport, OnTrade, OnReconnect, Deliveries;
    if move.RunNext? {
      if s.ready[0].Deliver? {
        DeliveryKeepsOutcome(s, size);
      } else {
        AnswerKeepsOutcome(s, size);
      }
    }
  }

  lemma {:induction false} RunKeepsOutcome(s: System, moves: seq<Move>, size: real)
    requires Inv(s) && Outcome(s, size) && Playable(s, moves) && size > 0.0
    ensures Outcome(Play(s, moves), size)
    decreases |moves|
  {
    if moves != [] {
      MoveKeepsInv(s, moves[0]);
      MoveKeepsOutcome(s, moves[0], size);
      RunKeepsOutcome(Next(s, moves[0]), moves[1..], size);
    }
  }

  /** In every run: the BUY order id is held while the order is watched, and until its cancel
      has been accounted for unless the order was filled before; a trade whose announced
      total reaches the order size by then has ended its entry. A trade that is not about to
      be closed may go on to sell exactly when its entry is complete, or timed out without
      closing it. It closes for want of a fill only if nothing was announced when the cancel
      was answered, and for a failed cancel keeping the order id unless that was filled; in
      either case with what was announced by then and what late polls still bring. */
  lemma EntryEndsExactly(size: real, filled: real, price: real, cost: real, matched: real, moves: seq<Move>)
    requires 0.0 <= filled <= matched <= size && filled < size
    requires Playable(Start(size, filled, price, cost, matched), moves)
    ensures var s := Play(Start(size, filled, price, cost, matched), moves);
            var t := s.trade;
            && (s.watched ==> t.entryOpen)
            && (t.position >= size && !s.timer.Finished? ==>
                  t.position == size && !t.entryOpen && (s.timer.Aborted? || (s.timer.Stopping? && s.timer.cancelled)))
            && (!s.timer.Stopping? ==>
                  (t.closed.None? && 0.0 < t.position && !t.entryOpen <==>
                     s.timer.Aborted? || (s.timer.Finished? && t.closed.None?)))
            && (MayExit(t) <==> t.closed.None? && 0.0 < t.position && !t.entryOpen)
            && (t.closed.Some? ==>
                  && s.timer.Finished? && s.timer.atAnswer <= t.position
                  && (t.closed == Some(TimeoutNoFill) || t.closed == Some(BuyCancelFailed)))
            && (t.closed == Some(TimeoutNoFill) ==> !t.entryOpen && s.timer.atAnswer == 0.0)
            && (t.closed == Some(BuyCancelFailed) ==> (t.entryOpen <==> t.position < size))
  {
    var s0 := Start(size, filled, price, cost, matched);
    assert Inv(s0) && Outcome(s0, size);
    RunKeepsOutcome(s0, moves, size);
    RunKeepsInv(s0, moves);
    QueuedPositive(Play(s0, moves).ready);
  }

  // ---- Why an entry fails ----

  // A cancel that is answered in these moves did not go through.
  predicate Refused(moves: seq<Move>) {
    exists k :: 0 <= k < |moves| && moves[k].CancelAnswers? && !moves[k].cancelled
  }

  // The answer to a refused cancel is waiting or has been accounted for.
  predicate Refusing(s: System) {
    || (s.timer.Answered? && RefusalWaits(s.ready))
    || (s.timer.Stopping? && s.timer.reason == BuyCancelFailed)
    || (s.timer.Finished? && s.trade.closed == Some(BuyCancelFailed))
  }

  predicate RefusalWaits(ready: seq<Task>) {
    exists k :: 0 <= k < |ready| && ready[k].Resume? && !ready[k].cancelled
  }

  lemma {:induction false} NoAnswerWaits(ready: seq<Task>)
    requires Resumes(ready) == 0
    ensures forall k :: 0 <= k < |ready| ==> ready[k].Deliver?
  {
    if ready != [] {
      NoAnswerWaits(ready[1..]);
      assert forall k :: 0 < k < |ready| ==> ready[k] == ready[1..][k - 1];
    }
  }

  lemma RefusalAppended(ready: seq<Task>, more: seq<Task>)
    ensures RefusalWaits(ready + more) <==> RefusalWaits(ready) || RefusalWaits(more)
  {
    assert forall k :: 0 <= k < |ready| ==> (ready + more)[k] == ready[k];
    assert forall k :: 0 <= k < |more| ==> (ready + more)[|ready| + k] == more[k];
  }

  lemma {:induction false} DeliveriesRefuseNothing(fills: seq<Fill>)
    ensures !RefusalWaits(Deliveries(fills))
  {
    if fills != [] {
      DeliveriesRefuseNothing(fills[1..]);
      RefusalAppended([Deliver(fills[0])], Deliveries(fills[1..]));
    }
  }

  lemma TaskMeansRefusal(s: System)
    requires Inv(s) && s.ready != [] && !Next(s, RunNext).timer.Aborted?
    ensures Refusing(Next(s, RunNext)) <==> Refusing(s)
  {
    hide Announced, Queued, Behind, FinalAnswers, AllPositive;
    var rest := s.ready[1..];
    RefusalAppended([s.ready[0]], rest);
    assert s.ready == [s.ready[0]] + rest;
    if s.timer.Answered? && s.ready[0].Resume? {
      NoAnswerWaits(rest);
    }
  }

  lemma MoveMeansRefusal(s: System, move: Move)
    requires Inv(s) && Enabled(s, move) && !Next(s, move).timer.Aborted?
    ensures Refusing(Next(s, move)) <==> Refusing(s) || (move.CancelAnswers? && !move.cancelled)
  {
    match move {
      case Update(m) =>
        if s.watched {
          assert s.timer == Sleeping;
        }
      case PollEnds(m) =>
        var fills := OnReconnect(s.watch, m).1;
        RefusalAppended(s.ready, Deliveries(fills));
        DeliveriesRefuseNothing(fills);
      case CancelAnswers(cancelled, queried) =>
        var answer := Resume(cancelled, if queried then Some(s.matched) else None);
        NoAnswerWaits(s.ready);
        RefusalAppended(s.ready, [answer]);
        assert [answer][0] == answer;
      case RunNext => TaskMeansRefusal(s);
      case Match(_) =>
      case TradeMessage(_, _, _) =>
      case PollStarts =>
      case TimerFires =>
      case CancelTakesEffect =>
      case RiskStopped(_) =>
    }
  }

  lemma {:induction false} StaysAborted(s: System, moves: seq<Move>)
    requires s.timer.Aborted? && Playable(s, moves)
    ensures Play(s, moves).timer.Aborted?
    decreases |moves|
  {
    if moves != [] {
      StaysAborted(Next(s, moves[0]), moves[1..]);
    }
  }

  lemma {:induction false} RefusalDecides(s: System, moves: seq<Move>)
    requires Inv(s) && Playable(s, moves)
    ensures var e := Play(s, moves);
            e.timer.Finished? ==> (e.trade.closed == Some(BuyCancelFailed) <==> Refusing(s) || Refused(moves))
    decreases |moves|
  {
    if moves != [] {
      var next, rest := Next(s, moves[0]), moves[1..];
      MoveKeepsInv(s, moves[0]);
      assert Refused(moves) <==> (moves[0].CancelAnswers? && !moves[0].cancelled) || Refused(rest) by {
        assert forall k :: 0 <= k < |rest| ==> rest[k] == moves[k + 1];
      }
      if next.timer.Aborted? {
        StaysAborted(next, rest);
      } else {
        hide Inv, Next, Refusing, Refused, Enabled;
        MoveMeansRefusal(s, moves[0]);
        RefusalDecides(next, rest);
      }
    }
  }

  /** A trade whose entry timed out is closed for a failed cancel exactly when its cancel was
      answered with a failure. */
  lemma ClosedWhenRefused(size: real, filled: real, price: real, cost: real, matched: real, moves: seq<Move>)
    requires 0.0 <= filled <= matched <= size
    requires Playable(Start(size, filled, price, cost, matched), moves)
    ensures var s := Play(Start(size, filled, price, cost, matched), moves);
            s.timer.Finished? ==> (s.trade.closed == Some(BuyCancelFailed) <==> Refused(moves))
  {
    assert !Refusing(Start(size, filled, price, cost, matched));
    RefusalDecides(Start(size, filled, price, cost, matched), moves);
  }

  /** Closing a trade changes nothing else of it. */
  lemma ClosingMovesNothing(s: System, move: Move)
    requires s.trade.closed.None? && Next(s, move).trade.closed.Some?
    ensures Next(s, move).trade == s.trade.(closed := Next(s, move).trade.closed)
  {
    hide OnReport, OnTrade, OnReconnect, Deliveries;
    if move.RunNext? && s.ready != [] {
      TasksDoNotClose(s.trade, s.ready[0]);
    }
    hide OnBuyFill, OnCancelAnswer;
  }

  lemma TasksDoNotClose(t: Holding, task: Task)
    ensures match task
            case Deliver(fill) => OnBuyFill(t, fill).closed == t.closed
            case Resume(cancelled, finalMatched) => OnCancelAnswer(t, cancelled, finalMatched).0.closed == t.closed
  {
  }

  /** A trade whose entry has failed closes once the risk monitor has stopped, except when a
      fill that completed the order has cancelled the timer's task meanwhile and the monitor
      has passed the cancellation on: then it stays open with the whole order. When the
      monitor swallows it, the trade is closed while it holds the whole order. */
  lemma StoppedExactly(s: System, swallowed: bool, size: real)
    requires Inv(s) && Outcome(s, size) && size > 0.0 && s.timer.Stopping?
    ensures var t := Next(s, RiskStopped(swallowed)).trade;
            if s.timer.cancelled && !swallowed then t == s.trade && MayExit(t) && t.position == size
            else t.closed == Some(s.timer.reason) && (s.timer.cancelled ==> t.position == size)
  {
  }

  /** A trade closes once, for the first reason given. */
  lemma ClosesOnce(t: Holding, first: CloseReason, second: CloseReason)
    ensures Close(Close(t, first), second) == Close(t, first)
    ensures t.closed.None? ==> Close(t, first) == t.(closed := Some(first))
  {
  }

  /** A trade that its entry has closed stays as it is, whatever happens afterwards. */
  lemma {:induction false} ClosedStays(s: System, moves: seq<Move>)
    requires s.trade.closed.Some? && s.timer.Finished? && Playable(s, moves)
    ensures Play(s, moves).trade == s.trade
    decreases |moves|
  {
    hide OnReport, OnTrade, OnReconnect, Deliveries;
    if moves != [] {
      ClosedStays(Next(s, moves[0]), moves[1..]);
    }
  }

  /** Without a reconnect poll in flight when the timer fires, a trade that its entry closes
      holds what was announced when the cancel was answered, which is nothing when it is
      closed for want of a fill. */
  lemma ClosesAtAnswer(s: System, moves: seq<Move>, size: real)
    requires Inv(s) && Outcome(s, size) && size > 0.0
    requires s.timer == Cancelling && !s.polling && Playable(s, moves)
    ensures var t := Play(s, moves).trade;
            && (t.closed.Some? ==> Play(s, moves).timer.Finished? && t.position == Play(s, moves).timer.atAnswer == Play(s, moves).watch.last)
            && (t.closed == Some(TimeoutNoFill) ==> t.position == 0.0)
  {
    RunKeepsOutcome(s, moves, size);
    RunKeepsInv(s, moves);
    WatchIsFrozen(s, moves);
    AtMostAnnounced(s, moves);
  }

  // No position exceeds what the watch has seen, while the trade is open or once its entry
  // has closed it.
  lemma {:induction false} AtMostAnnounced(s: System, moves: seq<Move>)
    requires Inv(s) && Playable(s, moves) && (s.trade.closed.Some? ==> s.timer.Finished? && s.trade.position <= s.watch.last)
    ensures var e := Play(s, moves);
            e.trade.closed.Some? ==> e.timer.Finished? && e.trade.position <= e.watch.last
    decreases |moves|
  {
    if moves != [] {
      var next := Next(s, moves[0]);
      MoveKeepsInv(s, moves[0]);
      QueuedPositive(s.ready);
      MoveKeepsAnnounced(s, moves[0]);
      hide Inv;
      AtMostAnnounced(next, moves[1..]);
    }
  }

  lemma MoveKeepsAnnounced(s: System, move: Move)
    requires Inv(s) && Enabled(s, move) && (s.trade.closed.Some? ==> s.timer.Finished? && s.trade.position <= s.watch.last)
    ensures var e := Next(s, move);
            e.trade.closed.Some? ==> e.timer.Finished? && e.trade.position <= e.watch.last
  {
    QueuedPositive(s.ready);
    hide OnTrade, Deliveries, Drain;
  }
}
