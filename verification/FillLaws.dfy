/** What holds of a watched order after every sequence of reports, trades and polls. */
module FillLaws {
  import opened Prelude
  import opened Fifo
  import opened FillAccounting

  // The quantities: what was matched at first plus what was sent out is what is matched
  // now, fill by fill.
  ghost predicate Conserved(initial: real, l: Ledger) {
    && initial + Size(l.fills) == l.w.last
    && RunningTotals(initial, l.fills)
  }

  // The trades: consumed in arrival order, each at its own price, each id once.
  ghost predicate InOrder(l: Ledger) {
    && Positive(l.accepted)
    && 0.0 <= Traded(l.fills) <= Total(l.accepted)
    && l.w.pending == Skip(l.accepted, Traded(l.fills))
    && TradedValue(l.fills) == Cost(l.accepted, Traded(l.fills))
    && LimitPriced(l.fills, l.w.price)
    && AtTradePrices(l.fills, l.accepted)
  }

  ghost predicate PerTrade(l: Ledger) {
    && (forall id :: FilledUnder(l.fills, id) + Under(l.w.pending, id) == Under(l.accepted, id))
    && (forall i :: 0 <= i < |l.accepted| ==> l.accepted[i].id in l.w.seen)
    && (forall i, j :: 0 <= i < j < |l.accepted| ==> l.accepted[i].id != l.accepted[j].id)
  }

  ghost predicate Sound(price: real, initial: real, l: Ledger) {
    l.w.price == price && Conserved(initial, l) && InOrder(l) && PerTrade(l)
  }

  lemma {:induction false} FromSkipped(fills: seq<Fill>, lots: seq<Lot>, q: real)
    requires AtTradePrices(fills, Skip(lots, q))
    ensures AtTradePrices(fills, lots)
    decreases |lots|
  {
    if lots != [] && q > 0.0 {
      if q >= lots[0].size {
        FromSkipped(fills, lots[1..], q - lots[0].size);
        AtTradePricesAppend([], [lots[0]], fills, lots[1..]);
        assert [] + fills == fills && [lots[0]] + lots[1..] == lots;
      } else {
        var cut := Skip(lots, q);
        forall k | 0 <= k < |fills| && fills[k].tradeId.Some?
          ensures exists i :: 0 <= i < |lots| && lots[i].id == fills[k].tradeId.value && lots[i].price == fills[k].price
        {
          var i :| 0 <= i < |cut| && cut[i].id == fills[k].tradeId.value && cut[i].price == fills[k].price;
          assert lots[i].id == cut[i].id && lots[i].price == cut[i].price;
        }
      }
    }
  }

  // What a match of more fills, which use up q of the pending trades, does to a ledger.
  function Extended(l: Ledger, last: real, more: seq<Fill>, q: real): Ledger {
    Ledger(l.w.(last := last, pending := Skip(l.w.pending, q)), l.accepted, l.fills + more)
  }

  lemma SumsGrow(a: seq<Fill>, b: seq<Fill>)
    ensures Size(a + b) == Size(a) + Size(b)
    ensures Traded(a + b) == Traded(a) + Traded(b)
    ensures TradedValue(a + b) == TradedValue(a) + TradedValue(b)
  {
    SumOfParts(SizeOf, a, b);
    SumOfParts(TradedOf, a, b);
    SumOfParts(TradedValueOf, a, b);
  }

  lemma ExtensionConserves(initial: real, l: Ledger, last: real, more: seq<Fill>, q: real)
    requires Conserved(initial, l) && l.w.last + Size(more) == last && RunningTotals(l.w.last, more)
    ensures Conserved(initial, Extended(l, last, more, q))
  {
    SumsGrow(l.fills, more);
    RunningTotalsAppend(initial, l.fills, more);
  }

  lemma ExtensionKeepsOrder(l: Ledger, last: real, more: seq<Fill>, q: real)
    requires InOrder(l) && 0.0 <= q == Traded(more) && q <= Total(l.w.pending)
    requires TradedValue(more) == Cost(l.w.pending, q)
    requires LimitPriced(more, l.w.price) && AtTradePrices(more, l.w.pending)
    ensures InOrder(Extended(l, last, more, q))
  {
    SumsGrow(l.fills, more);
    SkipKeepsRest(l.accepted, Traded(l.fills));
    SkipTwice(l.accepted, Traded(l.fills), q);
    FromSkipped(more, l.accepted, Traded(l.fills));
    AtTradePricesJoin(l.fills, more, l.accepted);
  }

  lemma ExtensionKeepsTrades(l: Ledger, last: real, more: seq<Fill>, q: real)
    requires PerTrade(l)
    requires forall id :: FilledUnder(more, id) + Under(Skip(l.w.pending, q), id) == Under(l.w.pending, id)
    ensures PerTrade(Extended(l, last, more, q))
  {
    forall id ensures FilledUnder(l.fills + more, id) == FilledUnder(l.fills, id) + FilledUnder(more, id) {
      FilledUnderParts(l.fills, more, id);
    }
  }

  // The quantity a report takes from the pending trades.
  function Taken(l: Ledger, m: real): real {
    Min(m - l.w.last, Total(l.w.pending))
  }

  lemma ReportExtends(l: Ledger, m: real)
    requires Positive(l.w.pending) && m > l.w.last
    ensures Step(l, Report(m)) == Extended(l, m, OnReport(l.w, m).1, Taken(l, m))
  {
    DrainSizes(l.w.price, m, m - l.w.last, l.w.pending);
  }

  lemma ReportTakes(w: Watch, m: real, q: real)
    requires Positive(w.pending) && m > w.last && q == Min(m - w.last, Total(w.pending))
    ensures var more := OnReport(w, m).1;
            && Size(more) == m - w.last && Traded(more) == q && 0.0 <= q
            && TradedValue(more) == Cost(w.pending, q)
            && LimitPriced(more, w.price) && AtTradePrices(more, w.pending) && RunningTotals(w.last, more)
  {
    DrainSizes(w.price, m, m - w.last, w.pending);
    DrainValues(w.price, m, m - w.last, w.pending);
    DrainTotals(w.price, m, m - w.last, w.pending);
    assert m - (m - w.last) == w.last;
  }

  lemma ReportTakesUnder(w: Watch, m: real, q: real)
    requires Positive(w.pending) && m > w.last && q == Min(m - w.last, Total(w.pending))
    ensures forall id ::
      FilledUnder(OnReport(w, m).1, id) + Under(Skip(w.pending, q), id) == Under(w.pending, id)
  {
    DrainSizes(w.price, m, m - w.last, w.pending);
    forall id
      ensures FilledUnder(OnReport(w, m).1, id) + Under(Skip(w.pending, q), id) == Under(w.pending, id)
    {
      DrainUnder(w.price, m, m - w.last, w.pending, id);
    }
  }

  lemma ExtensionIsSound(price: real, initial: real, l: Ledger, last: real, more: seq<Fill>, q: real)
    requires Sound(price, initial, l)
    requires l.w.last + Size(more) == last && RunningTotals(l.w.last, more)
    requires 0.0 <= q == Traded(more) && q <= Total(l.w.pending) && TradedValue(more) == Cost(l.w.pending, q)
    requires LimitPriced(more, price) && AtTradePrices(more, l.w.pending)
    requires forall id :: FilledUnder(more, id) + Under(Skip(l.w.pending, q), id) == Under(l.w.pending, id)
    ensures Sound(price, initial, Extended(l, last, more, q))
    ensures Traded(Extended(l, last, more, q).fills) == Traded(l.fills) + q
  {
    SumsGrow(l.fills, more);
    ExtensionConserves(initial, l, last, more, q);
    ExtensionKeepsOrder(l, last, more, q);
    ExtensionKeepsTrades(l, last, more, q);
  }

  lemma ReportSteps(price: real, initial: real, l: Ledger, m: real)
    requires Sound(price, initial, l) && m > l.w.last
    ensures Sound(price, initial, Step(l, Report(m)))
    ensures Traded(Step(l, Report(m)).fills) == Traded(l.fills) + Min(m - l.w.last, Total(l.accepted) - Traded(l.fills))
  {
    SkipKeepsRest(l.accepted, Traded(l.fills));
    ReportExtends(l, m);
    ReportTakes(l.w, m, Taken(l, m));
    ReportTakesUnder(l.w, m, Taken(l, m));
    ExtensionIsSound(price, initial, l, m, OnReport(l.w, m).1, Taken(l, m));
  }

  lemma AtTradePricesJoin(a: seq<Fill>, b: seq<Fill>, lots: seq<Lot>)
    requires AtTradePrices(a, lots) && AtTradePrices(b, lots)
    ensures AtTradePrices(a + b, lots)
  {
  }

  lemma PollSteps(price: real, initial: real, l: Ledger, m: real)
    requires Sound(price, initial, l) && m > l.w.last
    ensures Sound(price, initial, Step(l, Poll(m)))
    ensures Traded(Step(l, Poll(m)).fills) == Traded(l.fills)
  {
    var more := OnReconnect(l.w, m).1;
    assert more[1..] == [] && more[..1] == more;
    SumOfOne(SizeOf, more[0]);
    SumOfOne(TradedOf, more[0]);
    SumOfOne(TradedValueOf, more[0]);
    SumsGrow(l.fills, more);
    SkipKeepsRest(l.accepted, Traded(l.fills));
    TotalIsPositive(l.w.pending);
    ExtensionIsSound(price, initial, l, m, more, 0.0);
    assert Step(l, Poll(m)) == Extended(l, m, more, 0.0);
  }

  // A trade that is neither malformed nor seen before is queued at the end.
  lemma TradeIsQueued(l: Ledger, lot: Lot)
    requires lot.id !in l.w.seen && lot.size > 0.0 && lot.price > 0.0
    ensures var l' := Step(l, Trade(lot.id, lot.size, lot.price));
            && l'.fills == l.fills && l'.w.last == l.w.last && l'.w.price == l.w.price
            && l'.accepted == l.accepted + [lot] && l'.w.pending == l.w.pending + [lot]
            && l'.w.seen == l.w.seen + {lot.id}
  {
    assert lot.id in OnTrade(l.w, lot.id, lot.size, lot.price).seen;
  }

  lemma TradeKeepsOrder(l: Ledger, lot: Lot)
    requires InOrder(l)
    requires lot.id !in l.w.seen && lot.size > 0.0 && lot.price > 0.0
    ensures InOrder(Step(l, Trade(lot.id, lot.size, lot.price)))
  {
    TradeIsQueued(l, lot);
    AppendLot(l.accepted, lot, Traded(l.fills));
    AtTradePricesAppend(l.fills, l.accepted, [], [lot]);
    assert l.fills + [] == l.fills;
  }

  lemma TradeKeepsTrades(l: Ledger, lot: Lot)
    requires PerTrade(l)
    requires lot.id !in l.w.seen && lot.size > 0.0 && lot.price > 0.0
    ensures PerTrade(Step(l, Trade(lot.id, lot.size, lot.price)))
  {
    TradeIsQueued(l, lot);
    AppendTotal(l.accepted, lot);
    AppendTotal(l.w.pending, lot);
  }

  // A well-formed trade message under this id is among the first n events.
  predicate TradedBefore(events: seq<Event>, n: nat, id: string)
    requires n <= |events|
  {
    exists k :: 0 <= k < n && events[k].Trade? && events[k].id == id && events[k].size > 0.0 && events[k].price > 0.0
  }

  lemma {:induction false} SeenAreTraded(l: Ledger, events: seq<Event>, id: string)
    ensures id in Run(l, events).w.seen <==> id in l.w.seen || TradedBefore(events, |events|, id)
    decreases |events|
  {
    if events != [] {
      SeenAreTraded(Step(l, events[0]), events[1..], id);
      SeenStep(l, events[0], id);
      assert forall k :: 0 < k < |events| ==> events[k] == events[1..][k - 1];
      assert TradedBefore(events, |events|, id) <==>
        TradedBefore(events[1..], |events| - 1, id) ||
        (events[0].Trade? && events[0].id == id && events[0].size > 0.0 && events[0].price > 0.0) by {
        if TradedBefore(events[1..], |events| - 1, id) {
          var k :| 0 <= k < |events| - 1 && events[1..][k].Trade? && events[1..][k].id == id
                   && events[1..][k].size > 0.0 && events[1..][k].price > 0.0;
          assert events[k + 1] == events[1..][k];
        }
      }
    }
  }

  lemma SeenStep(l: Ledger, e: Event, id: string)
    ensures id in Step(l, e).w.seen <==> id in l.w.seen || (e.Trade? && e.id == id && e.size > 0.0 && e.price > 0.0)
  {
  }

  lemma {:induction false} RunSplits(l: Ledger, a: seq<Event>, b: seq<Event>)
    ensures Run(l, a + b) == Run(Run(l, a), b)
    decreases |a|
  {
    if a == [] {
      assert a + b == b;
    } else {
      assert (a + b)[1..] == a[1..] + b;
      RunSplits(Step(l, a[0]), a[1..], b);
    }
  }

  /** Of every history, exactly the first well-formed trade message of each id is accepted, at
      its size and price and behind those accepted before; nothing else changes what is
      accepted. */
  lemma AcceptedExactly(price: real, initial: real, events: seq<Event>, k: nat)
    requires k < |events|
    ensures var before, after := Run(Opening(price, initial), events[..k]), Run(Opening(price, initial), events[..k + 1]);
            var e := events[k];
            after.accepted == before.accepted +
              if e.Trade? && e.size > 0.0 && e.price > 0.0 && !TradedBefore(events, k, e.id)
              then [Lot(e.id, e.size, e.price)] else []
  {
    var o, e := Opening(price, initial), events[k];
    var before := Run(o, events[..k]);
    assert events[..k + 1] == events[..k] + [e];
    RunSplits(o, events[..k], [e]);
    assert [e][1..] == [];
    assert Run(before, [e]) == Step(before, e);
    if e.Trade? {
      SeenAreTraded(o, events[..k], e.id);
      assert TradedBefore(events[..k], k, e.id) <==> TradedBefore(events, k, e.id);
      if e.size > 0.0 && e.price > 0.0 && e.id !in before.w.seen {
        TradeIsQueued(before, Lot(e.id, e.size, e.price));
      }
    }
    assert before.accepted + [] == before.accepted;
  }

  lemma StepIsSound(price: real, initial: real, l: Ledger, e: Event)
    requires Sound(price, initial, l)
    ensures Sound(price, initial, Step(l, e))
  {
    assert l.fills + [] == l.fills;
    match e {
      case Report(m) =>
        if m > l.w.last {
          ReportSteps(price, initial, l, m);
        }
      case Poll(m) =>
        if m > l.w.last {
          PollSteps(price, initial, l, m);
        }
      case Trade(id, size, p) =>
        if id !in l.w.seen && size > 0.0 && p > 0.0 {
          TradeIsQueued(l, Lot(id, size, p));
          TradeKeepsOrder(l, Lot(id, size, p));
          TradeKeepsTrades(l, Lot(id, size, p));
        }
    }
  }

  lemma {:induction false} RunIsSound(price: real, initial: real, l: Ledger, events: seq<Event>)
    requires Sound(price, initial, l)
    ensures Sound(price, initial, Run(l, events))
    decreases |events|
  {
    if events != [] {
      StepIsSound(price, initial, l, events[0]);
      RunIsSound(price, initial, Step(l, events[0]), events[1..]);
    }
  }

  /** Every history of a watched order: no quantity is lost or counted twice, every fill is
      positive and announces the exact running total, trades are used up in arrival order
      with at most the next one partly used, each at its own price, and per trade id what
      was filled plus what is pending is the size of that trade. */
  lemma EveryHistoryIsSound(price: real, initial: real, events: seq<Event>)
    ensures Sound(price, initial, Run(Opening(price, initial), events))
  {
    RunIsSound(price, initial, Opening(price, initial), events);
  }

  // ---- How much: only which amounts were reported matters ----

  function Reported(e: Event): set<real> {
    match e
    case Report(m) => {m}
    case Poll(m) => {m}
    case Trade(_, _, _) => {}
  }

  function Reports(events: seq<Event>): set<real> {
    if events == [] then {} else Reported(events[0]) + Reports(events[1..])
  }

  lemma {:induction false} LastIsLargest(l: Ledger, events: seq<Event>)
    ensures var last := Run(l, events).w.last;
            && (last == l.w.last || last in Reports(events))
            && l.w.last <= last
            && forall m :: m in Reports(events) ==> m <= last
    decreases |events|
  {
    if events != [] {
      LastIsLargest(Step(l, events[0]), events[1..]);
    }
  }

  /** The quantity sent out is the largest report above the initial match, whatever the
      order and however often each amount is reported. */
  lemma SameReportsSameQuantity(price: real, initial: real, events: seq<Event>, events': seq<Event>)
    requires Reports(events) == Reports(events')
    ensures Size(Run(Opening(price, initial), events).fills) == Size(Run(Opening(price, initial), events').fills)
    ensures var q := Size(Run(Opening(price, initial), events).fills);
            (q == 0.0 || initial + q in Reports(events)) && forall m :: m in Reports(events) ==> m <= initial + q
  {
    EveryHistoryIsSound(price, initial, events);
    EveryHistoryIsSound(price, initial, events');
    LastIsLargest(Opening(price, initial), events);
    LastIsLargest(Opening(price, initial), events');
  }

  // ---- At what price: only the trades matter once they cover the reports ----

  // When an event arrives, every share it reports has its trade already.
  predicate Covered(initial: real, l: Ledger, e: Event) {
    match e
    case Report(m) => m <= l.w.last || m - initial <= Total(l.accepted)
    case Poll(m) => m <= l.w.last
    case Trade(_, _, _) => true
  }

  predicate AllCovered(initial: real, l: Ledger, events: seq<Event>)
    decreases |events|
  {
    events == [] || (Covered(initial, l, events[0]) && AllCovered(initial, Step(l, events[0]), events[1..]))
  }

  // Shares that were priced at the limit because their trade was missing.
  function Fallback(l: Ledger): real {
    Size(l.fills) - Traded(l.fills)
  }

  lemma FallbackOnReport(price: real, initial: real, l: Ledger, m: real)
    requires Sound(price, initial, l) && Fallback(l) >= 0.0 && m > l.w.last
    ensures Fallback(Step(l, Report(m))) >= Fallback(l)
    ensures Fallback(l) == 0.0 ==> (Fallback(Step(l, Report(m))) == 0.0 <==> m - initial <= Total(l.accepted))
  {
    ReportSteps(price, initial, l, m);
    ReportLast(l, m);
    hide Run, Skip, Cost, AtTradePrices, RunningTotals, SumBy, Step, InOrder, PerTrade, Total, LimitPriced, Drain;
  }

  lemma ReportLast(l: Ledger, m: real)
    requires m > l.w.last
    ensures Step(l, Report(m)).w.last == m
  {
  }

  lemma FallbackOnPoll(price: real, initial: real, l: Ledger, m: real)
    requires Sound(price, initial, l) && Fallback(l) >= 0.0 && m > l.w.last
    ensures Fallback(Step(l, Poll(m))) > Fallback(l)
  {
    PollSteps(price, initial, l, m);
    assert Step(l, Poll(m)).w.last == m;
    hide Run, Skip, Cost, AtTradePrices, RunningTotals, SumBy, Step, InOrder, PerTrade, Total, LimitPriced;
  }

  lemma FallbackGrows(price: real, initial: real, l: Ledger, e: Event)
    requires Sound(price, initial, l) && Fallback(l) >= 0.0
    ensures Fallback(Step(l, e)) >= Fallback(l)
    ensures Fallback(l) == 0.0 ==> (Fallback(Step(l, e)) == 0.0 <==> Covered(initial, l, e))
  {
    hide Run, Skip, Cost, AtTradePrices, RunningTotals, SumBy, Sound, Total, Drain;
    assert l.fills + [] == l.fills;
    match e {
      case Report(m) =>
        if m > l.w.last {
          FallbackOnReport(price, initial, l, m);
        }
      case Poll(m) =>
        if m > l.w.last {
          FallbackOnPoll(price, initial, l, m);
        }
      case Trade(_, _, _) =>
    }
  }

  lemma {:induction false} FallbackRun(price: real, initial: real, l: Ledger, events: seq<Event>)
    requires Sound(price, initial, l) && Fallback(l) >= 0.0
    ensures Fallback(Run(l, events)) >= Fallback(l)
    ensures Fallback(l) == 0.0 ==> (Fallback(Run(l, events)) == 0.0 <==> AllCovered(initial, l, events))
    decreases |events|
  {
    if events != [] {
      StepIsSound(price, initial, l, events[0]);
      FallbackGrows(price, initial, l, events[0]);
      FallbackRun(price, initial, Step(l, events[0]), events[1..]);
    }
  }

  /** The limit price is never used exactly when every effective report came after the
      trades behind it; then the value sent out is what the matched shares cost, taken
      from the trades in arrival order. */
  lemma LimitPriceUnusedExactly(price: real, initial: real, events: seq<Event>)
    ensures var l := Run(Opening(price, initial), events);
            && (Fallback(l) == 0.0 <==> AllCovered(initial, Opening(price, initial), events))
            && Value(l.fills) == Cost(l.accepted, Traded(l.fills)) + Fallback(l) * price
            && (Fallback(l) == 0.0 ==> Value(l.fills) == Cost(l.accepted, Size(l.fills)))
  {
    hide Run, AllCovered, Sound, Cost, Value, Size, Traded;
    var l := Run(Opening(price, initial), events);
    EveryHistoryIsSound(price, initial, events);
    OpeningIsSound(price, initial);
    FallbackRun(price, initial, Opening(price, initial), events);
    PricedApart(price, initial, l);
  }

  lemma OpeningIsSound(price: real, initial: real)
    ensures Sound(price, initial, Opening(price, initial)) && Fallback(Opening(price, initial)) == 0.0
  {
  }

  lemma PricedApart(price: real, initial: real, l: Ledger)
    requires Sound(price, initial, l)
    ensures Value(l.fills) == Cost(l.accepted, Traded(l.fills)) + Fallback(l) * price
  {
    ValueSplits(l.fills, price);
  }

  // The trades among the events.
  function Trades(events: seq<Event>): seq<Event> {
    if events == [] then []
    else if events[0].Trade? then [events[0]] + Trades(events[1..])
    else Trades(events[1..])
  }

  lemma {:induction false} AcceptedFromTrades(l: Ledger, k: Ledger, events: seq<Event>)
    requires l.accepted == k.accepted && l.w.seen == k.w.seen
    ensures Run(l, events).accepted == Run(k, Trades(events)).accepted
    decreases |events|
  {
    if events != [] {
      if events[0].Trade? {
        assert Trades(events)[1..] == Trades(events[1..]);
        SameTrade(l, k, events[0]);
        AcceptedFromTrades(Step(l, events[0]), Step(k, events[0]), events[1..]);
      } else {
        AcceptedFromTrades(Step(l, events[0]), k, events[1..]);
      }
    }
  }

  lemma SameTrade(l: Ledger, k: Ledger, e: Event)
    requires l.accepted == k.accepted && l.w.seen == k.w.seen && e.Trade?
    ensures Step(l, e).accepted == Step(k, e).accepted && Step(l, e).w.seen == Step(k, e).w.seen
  {
  }

  /** Two histories with the same trades in the same order and the same reported amounts,
      however interleaved, send out the same quantity and, when the trades cover the
      reports in both, the same value. */
  lemma InterleavingDoesNotMatter(price: real, initial: real, events: seq<Event>, events': seq<Event>)
    requires Trades(events) == Trades(events') && Reports(events) == Reports(events')
    requires AllCovered(initial, Opening(price, initial), events)
    requires AllCovered(initial, Opening(price, initial), events')
    ensures var l, k := Run(Opening(price, initial), events), Run(Opening(price, initial), events');
            Size(l.fills) == Size(k.fills) && Value(l.fills) == Value(k.fills) == Cost(l.accepted, Size(l.fills))
  {
    var o := Opening(price, initial);
    SameReportsSameQuantity(price, initial, events, events');
    LimitPriceUnusedExactly(price, initial, events);
    LimitPriceUnusedExactly(price, initial, events');
    AcceptedFromTrades(o, o, events);
    AcceptedFromTrades(o, o, events');
  }

  /** When everything that was traded is reported, the value sent out is the sum of size
      times price over the trades. */
  lemma FullyReported(price: real, initial: real, events: seq<Event>)
    requires AllCovered(initial, Opening(price, initial), events)
    requires Run(Opening(price, initial), events).w.last - initial == Total(Run(Opening(price, initial), events).accepted)
    ensures Value(Run(Opening(price, initial), events).fills) == Worth(Run(Opening(price, initial), events).accepted)
  {
    EveryHistoryIsSound(price, initial, events);
    LimitPriceUnusedExactly(price, initial, events);
    FullCost(Run(Opening(price, initial), events).accepted);
  }
}
