/** The user-channel client of one wallet: it watches orders, and schedules a fill callback
    for every part of a match. Network messages arrive as method calls. */
module UserWs {
  import opened Prelude
  import opened Fifo
  import opened FillAccounting

  // A fill callback waiting in the event loop.
  datatype Callback = Callback(orderId: string, fill: Fill)

  function Tagged(orderId: string, fills: seq<Fill>): (cs: seq<Callback>)
    ensures |cs| == |fills|
    ensures forall k :: 0 <= k < |cs| ==> cs[k] == Callback(orderId, fills[k])
  {
    seq(|fills|, k requires 0 <= k < |fills| => Callback(orderId, fills[k]))
  }

  lemma TaggedMore(orderId: string, fills: seq<Fill>, fill: Fill)
    ensures Tagged(orderId, fills + [fill]) == Tagged(orderId, fills) + [Callback(orderId, fill)]
  {
  }

  class OrderWatch {
    const price: real
    var lastMatched: real
    var seenTradeIds: set<string>
    var pendingTrades: seq<Lot>

    constructor (price: real, initialMatched: real)
      ensures View() == NewWatch(price, initialMatched)
    {
      this.price := price;
      lastMatched := initialMatched;
      seenTradeIds := {};
      pendingTrades := [];
    }

    function View(): Watch
      reads this
    {
      Watch(price, lastMatched, seenTradeIds, pendingTrades)
    }
  }

  class Client {
    var watches: map<string, OrderWatch>
    var scheduled: seq<Callback>

    // No two orders share a watch.
    ghost predicate Valid()
      reads this
    {
      forall a, b :: a in watches && b in watches && a != b ==> watches[a] != watches[b]
    }

    constructor ()
      ensures Valid() && watches == map[] && scheduled == []
    {
      watches := map[];
      scheduled := [];
    }

    method WatchOrder(orderId: string, price: real, initialMatched: real)
      requires Valid()
      modifies this`watches
      ensures Valid()
      ensures orderId in watches && fresh(watches[orderId])
      ensures watches == old(watches)[orderId := watches[orderId]]
      ensures watches[orderId].View() == NewWatch(price, initialMatched)
    {
      var watch := new OrderWatch(price, initialMatched);
      watches := watches[orderId := watch];
    }

    method UnwatchOrder(orderId: string)
      requires Valid()
      modifies this`watches
      ensures Valid() && watches == old(watches) - {orderId}
    {
      watches := watches - {orderId};
    }

    function WatchOf(orderId: string): set<OrderWatch>
      reads this
    {
      if orderId in watches then {watches[orderId]} else {}
    }

    /** An order update. */
    method HandleOrderEvent(orderId: string, sizeMatched: real)
      requires Valid()
      modifies this`scheduled, WatchOf(orderId)
      ensures orderId !in watches ==> scheduled == old(scheduled)
      ensures orderId in watches ==>
        var (w, fills) := OnReport(old(watches[orderId].View()), sizeMatched);
        watches[orderId].View() == w && scheduled == old(scheduled) + Tagged(orderId, fills)
    {
      if orderId !in watches {
        return;
      }
      var watch := watches[orderId];
      var delta := sizeMatched - watch.lastMatched;
      if delta <= 0.0 {
        return;
      }
      watch.lastMatched := sizeMatched;
      ConsumeTrades(orderId, watch, sizeMatched, delta);
    }

    // The matching loop: the pending trades first, in order, then the limit price.
    method ConsumeTrades(orderId: string, watch: OrderWatch, sizeMatched: real, delta: real)
      requires delta > 0.0
      modifies this`scheduled, watch`pendingTrades
      ensures var (fills, rest) := Drain(watch.price, sizeMatched, delta, old(watch.pendingTrades));
              watch.pendingTrades == rest && scheduled == old(scheduled) + Tagged(orderId, fills)
    {
      hide Drain;
      var remaining := delta;
      ghost var sent: seq<Fill> := [];
      ghost var (all, left) := Drain(watch.price, sizeMatched, delta, watch.pendingTrades);
      assert [] + all == all;
      while remaining > 0.0 && watch.pendingTrades != []
        invariant scheduled == old(scheduled) + Tagged(orderId, sent)
        invariant sent + Drain(watch.price, sizeMatched, remaining, watch.pendingTrades).0 == all
        invariant Drain(watch.price, sizeMatched, remaining, watch.pendingTrades).1 == left
        decreases |watch.pendingTrades|, remaining > 0.0
      {
        var lot := watch.pendingTrades[0];
        var part := Min(remaining, lot.size);
        var fill := Fill(part, lot.price, sizeMatched - remaining + part, Some(lot.id), WsTrade);
        DrainOnce(watch.price, sizeMatched, remaining, watch.pendingTrades);
        EmitFill(orderId, fill);
        TaggedMore(orderId, sent, fill);
        sent := sent + [fill];
        remaining := remaining - part;
        if part == lot.size {
          watch.pendingTrades := watch.pendingTrades[1..];
        } else {
          watch.pendingTrades := [lot.(size := lot.size - part)] + watch.pendingTrades[1..];
        }
      }
      DrainEnds(watch.price, sizeMatched, remaining, watch.pendingTrades);
      if remaining > 0.0 {
        var fill := Fill(remaining, watch.price, sizeMatched, None, WsOrderUpdate);
        EmitFill(orderId, fill);
        TaggedMore(orderId, sent, fill);
        sent := sent + [fill];
      }
      assert sent == all;
    }

    method EmitFill(orderId: string, fill: Fill)
      modifies this`scheduled
      ensures scheduled == old(scheduled) + [Callback(orderId, fill)]
    {
      scheduled := scheduled + [Callback(orderId, fill)];
    }

    /** A single trade: queued for the update that covers it. */
    method HandleTradeEvent(orderId: string, tradeId: string, size: real, price: real)
      requires Valid()
      modifies WatchOf(orderId)
      ensures orderId in watches ==>
        watches[orderId].View() == OnTrade(old(watches[orderId].View()), tradeId, size, price)
    {
      if orderId !in watches || tradeId in watches[orderId].seenTradeIds {
        return;
      }
      if size <= 0.0 || price <= 0.0 {
        return;
      }
      var watch := watches[orderId];
      watch.seenTradeIds := watch.seenTradeIds + {tradeId};
      watch.pendingTrades := watch.pendingTrades + [Lot(tradeId, size, price)];
    }

    /** The second half of reconcile_order, after the REST query: watch is the one found
        before the query, which the order may have lost in the meantime. */
    method FinishReconcile(orderId: string, watch: OrderWatch, serverMatched: Option<real>)
      returns (r: Option<real>)
      requires Valid()
      modifies this`scheduled, WatchOf(orderId)
      ensures r == serverMatched
      ensures serverMatched.Some? && serverMatched.value > old(watch.lastMatched) && orderId in watches ==>
        var (w, fills) := OnReport(old(watches[orderId].View()), serverMatched.value);
        watches[orderId].View() == w && scheduled == old(scheduled) + Tagged(orderId, fills)
      ensures serverMatched.None? || serverMatched.value <= old(watch.lastMatched) || orderId !in watches ==>
        scheduled == old(scheduled) && (orderId in watches ==> watches[orderId].View() == old(watches[orderId].View()))
    {
      if serverMatched.None? {
        return None;
      }
      if serverMatched.value > watch.lastMatched {
        HandleOrderEvent(orderId, serverMatched.value);
      }
      return serverMatched;
    }

    /** One order of the poll after a reconnect, after its REST query. The watch is the one
        listed before the query and is used even when it is no longer registered. */
    method FinishReconnectPoll(orderId: string, watch: OrderWatch, serverMatched: real)
      modifies this`scheduled, watch
      ensures var (w, fills) := OnReconnect(old(watch.View()), serverMatched);
              watch.View() == w && scheduled == old(scheduled) + Tagged(orderId, fills)
    {
      var delta := serverMatched - watch.lastMatched;
      if delta > 0.0 {
        watch.lastMatched := serverMatched;
        EmitFill(orderId, Fill(delta, watch.price, serverMatched, None, ReconnectReconcile));
      }
    }
  }
}
