/** One trade: the entry callbacks, the exit callbacks and the selling loop, as an object
    whose fields they update. */
module SweepTrade {
  import opened Prelude
  import opened FillAccounting
  import BuyEntry
  import opened SellExit
  import opened SellAttempts

  class Trade {
    var position: real
    var entryCost: real
    var orderSize: real
    var buyPrice: real
    var entryOpen: bool
    var closed: Option<BuyEntry.CloseReason>
    var sold: real
    var revenue: real
    var normalExitStarted: bool
    var exitOrderId: Option<string>
    var normalSellMatched: map<string, real>
    var normalSellSizes: map<string, real>
    var sellPrice: real
    var sellCancelled: bool
    var sellDone: bool
    ghost var log: seq<Attempt>  // every SELL sent out, with its answer

    function Holding(): BuyEntry.Holding
      reads this
    {
      BuyEntry.Holding(position, entryCost, orderSize, buyPrice, entryOpen, closed)
    }

    function Books(): Books
      reads this
    {
      SellExit.Books(position, sold, revenue, normalSellMatched, normalSellSizes, sellPrice, sellCancelled, sellDone)
    }

    constructor (orderSize: real, buyPrice: real, filled: real, price: real)
      ensures Holding() == BuyEntry.RecordBuyFill(
        BuyEntry.Holding(0.0, 0.0, orderSize, buyPrice, true, None), filled, price)
      ensures sold == revenue == 0.0 && log == []
    {
      position, entryCost := filled, filled * price;
      this.orderSize, this.buyPrice, entryOpen, closed := orderSize, buyPrice, true, None;
      sold, revenue, normalExitStarted, exitOrderId := 0.0, 0.0, false, None;
      normalSellMatched, normalSellSizes := map[], map[];
      sellPrice, sellCancelled, sellDone := 0.0, false, false;
      log := [];
    }

    // ---- Entry ----

    method RecordBuyFill(filled: real, price: real)
      modifies this`position, this`entryCost
      ensures Holding() == BuyEntry.RecordBuyFill(old(Holding()), filled, price)
    {
      position := position + filled;
      entryCost := entryCost + filled * price;
    }

    method OnBuyFill(fill: Fill) returns (complete: bool)
      modifies this`position, this`entryCost, this`entryOpen
      ensures Holding() == BuyEntry.OnBuyFill(old(Holding()), fill)
      ensures complete == BuyEntry.Completes(old(Holding()), fill)
    {
      if closed.Some? {
        return false;
      }
      RecordBuyFill(fill.size, fill.price);
      if fill.total >= orderSize {
        entryOpen := false;
        return true;
      }
      return false;
    }

    // The result says why the trade is to be closed once the risk monitor has stopped.
    method FinishEntryTimeout(cancelled: bool, finalMatched: Option<real>) returns (stop: Option<BuyEntry.CloseReason>)
      modifies this`position, this`entryCost, this`entryOpen
      ensures (Holding(), stop) == BuyEntry.OnCancelAnswer(old(Holding()), cancelled, finalMatched)
    {
      if !cancelled {
        return Some(BuyEntry.BuyCancelFailed);
      }
      entryOpen := false;
      if finalMatched.Some? && finalMatched.value > 0.0 && finalMatched.value > position {
        RecordBuyFill(finalMatched.value - position, buyPrice);
      }
      return if position <= 0.0 then Some(BuyEntry.TimeoutNoFill) else None;
    }

    // A closed trade keeps its reason.
    method Close(reason: BuyEntry.CloseReason)
      modifies this`closed
      ensures Holding() == BuyEntry.Close(old(Holding()), reason)
    {
      if closed.None? {
        closed := Some(reason);
      }
    }

    // ---- Exit callbacks ----

    method RecordSellFill(filled: real, price: real)
      modifies this`position, this`sold, this`revenue
      ensures Books() == RecordSell(old(Books()), filled, price)
    {
      position := position - filled;
      sold := sold + filled;
      revenue := revenue + filled * price;
    }

    method HandleSellFill(orderId: string, size: real, price: real, total: real)
      modifies this`position, this`sold, this`revenue, this`normalSellMatched, this`sellDone
      ensures Books() == if closed.Some? then old(Books()) else OnSellFill(old(Books()), orderId, size, price, total)
    {
      if closed.Some? {
        return;
      }
      var known := if orderId in normalSellMatched then normalSellMatched[orderId] else 0.0;
      normalSellMatched := normalSellMatched[orderId := Max(known, total)];
      RecordSellFill(size, price);
      var completed := orderId in normalSellSizes && total >= normalSellSizes[orderId];
      if position <= 0.0 || completed {
        sellDone := true;
      }
    }

    method HandleSellCancel(orderId: string, sizeMatched: real)
      modifies this`position, this`sold, this`revenue, this`normalSellMatched, this`normalSellSizes,
               this`sellCancelled, this`sellDone
      ensures Books() == OnSellCancel(old(Books()), orderId, sizeMatched)
    {
      sellCancelled := true;
      var known := if orderId in normalSellMatched then normalSellMatched[orderId] else 0.0;
      if sizeMatched > known {
        RecordSellFill(sizeMatched - known, sellPrice);
      }
      normalSellMatched := normalSellMatched - {orderId};
      normalSellSizes := normalSellSizes - {orderId};
      sellDone := true;
    }

    method HandleUpdate(orderId: string, update: Update)
      modifies this`position, this`sold, this`revenue, this`normalSellMatched, this`normalSellSizes,
               this`sellCancelled, this`sellDone
      ensures Books() == if closed.Some? && update.FillUpdate? then old(Books()) else OnUpdate(old(Books()), orderId, update)
    {
      match update {
        case FillUpdate(size, price, total) => HandleSellFill(orderId, size, price, total);
        case CancelUpdate(sizeMatched) => HandleSellCancel(orderId, sizeMatched);
      }
    }

    // The callbacks that run at one await.
    method HandleCalls(calls: seq<Call>)
      requires closed.None?
      modifies this`position, this`sold, this`revenue, this`normalSellMatched, this`normalSellSizes,
               this`sellCancelled, this`sellDone
      ensures Books() == AfterCalls(old(Books()), calls)
    {
      hide OnUpdate;
      ghost var began := Books();
      var i := 0;
      while i < |calls|
        invariant 0 <= i <= |calls|
        invariant AfterCalls(began, calls) == AfterCalls(Books(), calls[i..])
      {
        assert calls[i..][1..] == calls[i + 1..];
        HandleUpdate(calls[i].orderId, calls[i].update);
        i := i + 1;
      }
      assert calls[i..] == [];
    }

    // ---- The selling loop ----

    /** Wait for a resting SELL that is filled at once up to known. All these callbacks run
        before the loop wakes, those that come after the one that ends the wait as well. The
        result says whether it woke. */
    method AwaitSell(orderId: string, known: real, calls: seq<Call>) returns (ended: bool)
      requires closed.None?
      modifies this`position, this`sold, this`revenue, this`normalSellMatched, this`normalSellSizes,
               this`sellCancelled, this`sellDone
      ensures Books() == Waited(old(Books()), orderId, known, calls) && ended == sellDone
    {
      sellDone, sellCancelled := false, false;
      normalSellMatched := normalSellMatched[orderId := known];
      HandleCalls(calls);
      ended := sellDone;
      if ended {
        normalSellMatched := normalSellMatched - {orderId};
        normalSellSizes := normalSellSizes - {orderId};
      }
    }

    /** Account for an accepted SELL to its end. */
    method FollowSell(turn: Turn, size: real, price: real, ghost a: Attempt) returns (ended: bool)
      requires turn.Accepted? && closed.None?
      requires a.size == size && a.limit == price && a.answer.turn == turn
      modifies this`position, this`sold, this`revenue, this`normalSellMatched, this`normalSellSizes,
               this`sellCancelled, this`sellDone, this`sellPrice, this`exitOrderId
      ensures Books() == Followed(old(Books()), a)
      ensures ended == (turn.complete || Books().done)
      ensures exitOrderId == if ended then None else Some(turn.orderId)
    {
      hide AfterCalls, ExecutionPrice;
      exitOrderId := Some(turn.orderId);
      normalSellSizes := normalSellSizes[turn.orderId := size];
      if turn.filled > 0.0 {
        RecordSellFill(turn.filled, ExecutionPrice(turn.price, price));
      }
      if turn.complete {
        normalSellSizes := normalSellSizes - {turn.orderId};
        ended := true;
      } else {
        sellPrice := price;
        ended := AwaitSell(turn.orderId, turn.filled, turn.calls);
      }
      if ended {
        exitOrderId := None;
      }
    }

    // Every SELL goes out through here; callbacks may run before the answer is there.
    method PlaceSell(exchange: Exchange, attempt: nat, size: real, price: real) returns (answer: Answer)
      requires closed.None?
      modifies this`log, this`position, this`sold, this`revenue, this`normalSellMatched, this`normalSellSizes,
               this`sellCancelled, this`sellDone
      ensures answer == exchange(attempt, size)
      ensures Books() == AfterCalls(old(Books()), answer.before)
      ensures log == old(log) + [Attempt(old(position), size, price, position, answer)]
    {
      answer := exchange(attempt, size);
      ghost var offered := position;
      HandleCalls(answer.before);
      log := log + [Attempt(offered, size, price, position, answer)];
    }

    predicate MayStartExit()
      reads this
    {
      !normalExitStarted && BuyEntry.MayExit(Holding())
    }

    /** The normal exit: nothing happens to a trade that is closed, already exiting, without
        a position or still buying; without agreement on the tick, or with a position too
        small to sell, the trade closes; otherwise it sells. The closing callbacks run while
        the risk monitor stops. */
    method StartNormalExit(exchange: Exchange, consensus: Option<real>, minOrderSize: Option<real>,
                           closing: seq<Call>, horizon: nat)
      requires !normalExitStarted ==> log == []
      modifies this
      ensures !old(MayStartExit()) ==> Books() == old(Books()) && Holding() == old(Holding()) && log == old(log)
      ensures old(MayStartExit()) ==> normalExitStarted
      ensures old(MayStartExit()) && consensus.None? ==>
        closed == Some(BuyEntry.TickRefreshFailed) && log == [] && Books() == AfterCalls(old(Books()), closing)
      ensures old(MayStartExit()) && consensus.Some? ==>
        var u := Setup(exchange, old(Books()), consensus.value, minOrderSize);
        Concluded(u, closing) && (closed.None? ==> |log| == horizon || Rests(u, log))
      ensures old(MayStartExit()) && consensus.Some? && horizon > 0 ==>
        (log == [] <==> minOrderSize.Some? && old(position) < minOrderSize.value)
    {
      if closed.Some? || normalExitStarted {
        return;
      }
      if position <= 0.0 || entryOpen {
        return;
      }
      normalExitStarted := true;
      if consensus.None? {
        HandleCalls(closing);
        closed := Some(BuyEntry.TickRefreshFailed);
        return;
      }
      if Dust(position, minOrderSize) {
        HandleCalls(closing);
        closed := Some(BuyEntry.DustPosition);
        return;
      }
      SellLoop(exchange, minOrderSize, consensus.value, closing, horizon);
    }

    // The verdict and the books are what the log makes of them, and what runs while the
    // risk monitor stops comes on top.
    ghost predicate Concluded(u: Setup, closing: seq<Call>)
      reads this
    {
      && Lawful(u, log) && closed == Verdict(u, log)
      && Books() == if closed == Some(BuyEntry.NormalExit) || closed == Some(BuyEntry.DustPosition)
                    then AfterCalls(BooksAfter(u, log), closing)
                    else BooksAfter(u, log)
    }

    // In the middle of it all, with the loop's own variables.
    ghost predicate Underway(u: Setup, price: real, invalidTicks: nat, retry: Option<real>)
      reads this
    {
      closed.None? && Tracks(u, log, Books(), price, invalidTicks, retry)
    }

    /** One attempt. Returned are the limit, the refused ticks and the retry size to go on
        with, and whether to go on at all. */
    method TryToSell(exchange: Exchange, minOrderSize: Option<real>, attempt: nat, price: real,
                     invalidTickRetries: nat, retrySize: Option<real>, ghost u: Setup, ghost closing: seq<Call>)
      returns (price': real, invalidTickRetries': nat, retrySize': Option<real>, goesOn: bool)
      requires u.exchange == exchange && u.minOrderSize == minOrderSize
      requires Underway(u, price, invalidTickRetries, retrySize)
      requires position > 0.0 && !Dust(position, minOrderSize)
      requires attempt == |log| + 1
      modifies this
      ensures normalExitStarted == old(normalExitStarted) && |log| == attempt
      ensures goesOn ==> Underway(u, price', invalidTickRetries', retrySize')
      ensures !goesOn ==> Concluded(u, closing) && (closed.None? ==> Rests(u, log))
    {
      hide Tracks, Lawful, Verdict, BooksAfter, AfterCalls, Followed, BalanceRetry, Rests, Dust;
      AttemptTracks(u, log, Books(), price, invalidTickRetries, retrySize);
      var size := if retrySize.Some? && retrySize.value != 0.0 then retrySize.value else position;
      var answer := PlaceSell(exchange, attempt, size, price);
      var turn := answer.turn;
      ghost var a := Last(log);
      price', invalidTickRetries', retrySize', goesOn := price, invalidTickRetries, None, true;
      match turn {
        case BalanceLag(balance, matched) =>
          retrySize' := BalanceRetry(position, size, minOrderSize, balance, matched);
          if retrySize'.None? {
            HandleCalls(answer.after);
          } else {
            NoCalls(Books());
          }
        case InvalidTick(newTick) =>
          HandleCalls(answer.after);
          if invalidTickRetries >= INVALID_TICK_RETRIES || newTick.None? {
            closed := Some(FailureReason(turn));
            goesOn := false;
          } else {
            invalidTickRetries' := invalidTickRetries + 1;
            price' := 1.0 - newTick.value;
          }
        case Failed(stop, _) =>
          HandleCalls(answer.after);
          if stop {
            closed := Some(FailureReason(turn));
            goesOn := false;
          }
        case Accepted(_, _, _, _, _) =>
          goesOn := FollowSell(turn, size, price, a);
      }
    }

    /** Sell the whole position, attempt after attempt, against an exchange that answers the
        n-th attempt as it likes, with whatever callbacks at the awaits, for as many attempts
        as are observed. The log is lawful, the books are what it makes of them, and the
        trade closes as it says. */
    method SellLoop(exchange: Exchange, minOrderSize: Option<real>, tick: real, closing: seq<Call>, horizon: nat)
      requires closed.None? && 0.0 < position && log == []
      modifies this
      ensures normalExitStarted == old(normalExitStarted)
      ensures var u := Setup(exchange, old(Books()), tick, minOrderSize);
              Concluded(u, closing) && (closed.None? ==> |log| == horizon || Rests(u, log))
      ensures horizon > 0 ==> (log == [] <==> minOrderSize.Some? && old(position) < minOrderSize.value)
    {
      ghost var u := Setup(exchange, Books(), tick, minOrderSize);
      var price := 1.0 - tick;
      var attempt := 0;
      var invalidTickRetries := 0;
      var retrySize: Option<real> := None;
      assert Underway(u, price, invalidTickRetries, retrySize);
      hide Tracks, Lawful, Verdict, BooksAfter, AfterCalls, Rests;
      while position > 0.0
        invariant log == [] ==> position == old(position)
        invariant log != [] ==> !Dust(old(position), minOrderSize)
        invariant normalExitStarted == old(normalExitStarted)
        invariant Underway(u, price, invalidTickRetries, retrySize)
        invariant attempt == |log| <= horizon
        decreases horizon - attempt
      {
        VerdictNow(u, log, Books(), price, invalidTickRetries, retrySize);
        if Dust(position, minOrderSize) {
          HandleCalls(closing);
          closed := Some(BuyEntry.DustPosition);
          return;
        }
        if attempt == horizon {
          return;
        }
        attempt := attempt + 1;
        var goesOn;
        price, invalidTickRetries, retrySize, goesOn :=
          TryToSell(exchange, minOrderSize, attempt, price, invalidTickRetries, retrySize, u, closing);
        if !goesOn {
          return;
        }
      }
      VerdictNow(u, log, Books(), price, invalidTickRetries, retrySize);
      HandleCalls(closing);
      closed := Some(BuyEntry.NormalExit);
    }
  }
}
