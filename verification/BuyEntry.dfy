/** The life of a resting BUY: the exchange, the user-channel watch, the event loop's queue
    of callbacks and the trade, as one state machine whose moves are what happens between
    two awaits. */
module BuyEntry {
  import opened Prelude
  import opened FillAccounting

  datatype CloseReason =
    | TimeoutNoFill
    | BuyCancelFailed
    | NormalExit
    | DustPosition
    | SellPlacementFailed
    | SellFillParseError
    | TickRefreshFailed

  // The accounting fields of a trade. entryOpen says that a BUY order id is held.
  datatype Holding = Holding(position: real, entryCost: real, orderSize: real, buyPrice: real,
                         entryOpen: bool, closed: Option<CloseReason>)

  function RecordBuyFill(t: Holding, size: real, price: real): Holding {
    t.(position := t.position + size, entryCost := t.entryCost + size * price)
  }

  predicate Completes(t: Holding, fill: Fill) {
    t.closed.None? && fill.total >= t.orderSize
  }

  function OnBuyFill(t: Holding, fill: Fill): Holding {
    if t.closed.Some? then t
    else
      var t := RecordBuyFill(t, fill.size, fill.price);
      if fill.total >= t.orderSize then t.(entryOpen := false) else t
  }

  // Open, with something to sell and no BUY order left.
  predicate MayExit(t: Holding) {
    t.closed.None? && 0.0 < t.position && !t.entryOpen
  }

  // A trade closes once.
  function Close(t: Holding, reason: CloseReason): Holding {
    if t.closed.Some? then t else t.(closed := Some(reason))
  }

  // The entry timeout, once the cancel has been answered: the trade, and why it is to be
  // closed, if it is.
  function OnCancelAnswer(t: Holding, cancelled: bool, finalMatched: Option<real>): (Holding, Option<CloseReason>) {
    if !cancelled then (t, Some(BuyCancelFailed))
    else
      var t := t.(entryOpen := false);
      var t := if finalMatched.Some? && finalMatched.value > 0.0 && finalMatched.value > t.position
               then RecordBuyFill(t, finalMatched.value - t.position, t.buyPrice) else t;
      (t, if t.position <= 0.0 then Some(TimeoutNoFill) else None)
  }

  // What waits in the event loop, oldest first.
  datatype Task = Deliver(fill: Fill) | Resume(cancelled: bool, finalMatched: Option<real>)

  // The entry timer. From Answered on it remembers the watch's cumulative match at the moment
  // the cancel was answered. Stopping: the risk monitor is being stopped before the trade
  // is closed; cancelled then says that the timer's own task has been cancelled meanwhile.
  datatype Timer =
    | Sleeping
    | Cancelling
    | Answered(atAnswer: real)
    | Stopping(atAnswer: real, known: bool, reason: CloseReason, cancelled: bool)
    | Finished(atAnswer: real, known: bool)
    | Aborted

  // sent is every fill that the client has sent out so far.
  datatype System = System(
    matched: real, live: bool,
    watch: Watch, watched: bool, polling: bool, sent: seq<Fill>,
    ready: seq<Task>,
    trade: Holding, timer: Timer)

  datatype Move =
    | Match(q: real)                 // the exchange matches q more shares
    | Update(m: real)                // an order update or a REST reconciliation
    | TradeMessage(id: string, size: real, price: real)
    | PollStarts                     // a reconnect poll lists the watch
    | PollEnds(m: real)
    | TimerFires
    | CancelTakesEffect
    // cancelled: the call did not raise; queried: the order was found in a final state
    | CancelAnswers(cancelled: bool, queried: bool)
    // the risk monitor has stopped, having swallowed a cancellation of the timer's task or not
    | RiskStopped(swallowed: bool)
    | RunNext                        // the event loop runs the oldest task

  predicate Enabled(s: System, move: Move) {
    match move
    case Match(q) => s.live && q > 0.0 && s.matched + q <= s.trade.orderSize
    case Update(m) => m <= s.matched
    case TradeMessage(_, _, _) => true
    case PollStarts => s.watched && !s.polling
    case PollEnds(m) => s.polling && m <= s.matched
    case TimerFires => s.timer == Sleeping
    case CancelTakesEffect => s.timer == Cancelling
    case CancelAnswers(cancelled, queried) => s.timer == Cancelling && (cancelled && queried ==> !s.live)
    case RiskStopped(_) => s.timer.Stopping?
    case RunNext => s.ready != []
  }

  function Deliveries(fills: seq<Fill>): seq<Task> {
    if fills == [] then [] else [Deliver(fills[0])] + Deliveries(fills[1..])
  }

  function Next(s: System, move: Move): System {
    match move
    case Match(q) => s.(matched := s.matched + q)
    case Update(m) =>
      if !s.watched then s
      else
        var (w, fills) := OnReport(s.watch, m);
        s.(watch := w, sent := s.sent + fills, ready := s.ready + Deliveries(fills))
    case TradeMessage(id, size, price) =>
      if s.watched then s.(watch := OnTrade(s.watch, id, size, price)) else s
    case PollStarts => s.(polling := true)
    case PollEnds(m) =>
      var (w, fills) := OnReconnect(s.watch, m);
      s.(polling := false, watch := w, sent := s.sent + fills, ready := s.ready + Deliveries(fills))
    case TimerFires => s.(watched := false, timer := Cancelling)
    case CancelTakesEffect => s.(live := false)
    case CancelAnswers(cancelled, queried) =>
      s.(timer := Answered(s.watch.last),
         ready := s.ready + [Resume(cancelled, if queried then Some(s.matched) else None)])
    case RiskStopped(swallowed) =>
      if !s.timer.Stopping? then s
      else if s.timer.cancelled && !swallowed then s.(timer := Aborted)
      else s.(trade := Close(s.trade, s.timer.reason), timer := Finished(s.timer.atAnswer, s.timer.known))
    case RunNext => if s.ready == [] then s else RunTask(s.(ready := s.ready[1..]), s.ready[0])
  }

  function RunTask(s: System, task: Task): System {
    match task
    case Deliver(fill) =>
      var s' := s.(trade := OnBuyFill(s.trade, fill));
      if Completes(s.trade, fill) then s'.(watched := false, timer := StopTimer(s.timer)) else s'
    case Resume(cancelled, finalMatched) =>
      if !s.timer.Answered? then s
      else
        var (t, stop) := OnCancelAnswer(s.trade, cancelled, finalMatched);
        var a, known := s.timer.atAnswer, cancelled && finalMatched.Some?;
        s.(trade := t, timer := if stop.Some? then Stopping(a, known, stop.value, false) else Finished(a, known))
  }

  // Cancelling a timer task that has ended changes nothing; one that waits for the risk
  // monitor to stop learns of it there.
  function StopTimer(timer: Timer): Timer {
    if timer.Finished? then timer
    else if timer.Stopping? then timer.(cancelled := true)
    else Aborted
  }

  // The order was accepted with filled shares matched at once, and is being watched.
  function Start(size: real, filled: real, buyPrice: real, cost: real, matched: real): System {
    System(matched, true, NewWatch(buyPrice, filled), true, false, [], [],
           Holding(filled, cost, size, buyPrice, true, None), Sleeping)
  }

  function Play(s: System, moves: seq<Move>): System
    decreases |moves|
  {
    if moves == [] then s else Play(Next(s, moves[0]), moves[1..])
  }

  predicate Playable(s: System, moves: seq<Move>)
    decreases |moves|
  {
    moves == [] || (Enabled(s, moves[0]) && Playable(Next(s, moves[0]), moves[1..]))
  }
}
