/** How one watched order turns reports about it into fills: cumulative matched amounts
    (order updates, REST reconciliation, reconnect polls) say how much, single trades say
    at what price, and they come in any order, late and repeated. */
module FillAccounting {
  import opened Prelude
  import opened Fifo

  datatype Source = WsTrade | WsOrderUpdate | ReconnectReconcile

  datatype Fill = Fill(size: real, price: real, total: real, tradeId: Option<string>, source: Source)

  // The limit price, the cumulative match, the ids seen and the trades not yet used up.
  datatype Watch = Watch(price: real, last: real, seen: set<string>, pending: seq<Lot>)

  function NewWatch(price: real, initial: real): Watch {
    Watch(price, initial, {}, [])
  }

  // Split a match of size remaining, which brings the total to matched, over the pending
  // trades; the limit price stands in for trades that are not there.
  function Drain(price: real, matched: real, remaining: real, pending: seq<Lot>): (seq<Fill>, seq<Lot>)
    decreases |pending|
  {
    if remaining <= 0.0 then ([], pending)
    else if pending == [] then ([Fill(remaining, price, matched, None, WsOrderUpdate)], [])
    else
      var lot := pending[0];
      var part := Min(remaining, lot.size);
      var fill := Fill(part, lot.price, matched - remaining + part, Some(lot.id), WsTrade);
      if part == lot.size then
        var (fills, rest) := Drain(price, matched, remaining - part, pending[1..]);
        ([fill] + fills, rest)
      else ([fill], [lot.(size := lot.size - part)] + pending[1..])
  }

  // One part of the split, and what is left to split after it.
  lemma DrainOnce(price: real, matched: real, remaining: real, pending: seq<Lot>)
    requires remaining > 0.0 && pending != []
    ensures var lot := pending[0];
            var part := Min(remaining, lot.size);
            var next := if part == lot.size then pending[1..] else [lot.(size := lot.size - part)] + pending[1..];
            var (fills, rest) := Drain(price, matched, remaining - part, next);
            Drain(price, matched, remaining, pending) ==
            ([Fill(part, lot.price, matched - remaining + part, Some(lot.id), WsTrade)] + fills, rest)
  {
    var lot := pending[0];
    if Min(remaining, lot.size) != lot.size {
      var fill := Fill(remaining, lot.price, matched, Some(lot.id), WsTrade);
      assert [fill] + [] == [fill];
      assert matched - remaining + remaining == matched;
    }
  }

  lemma DrainEnds(price: real, matched: real, remaining: real, pending: seq<Lot>)
    requires remaining <= 0.0 || pending == []
    ensures Drain(price, matched, remaining, pending) ==
            (if remaining <= 0.0 then [] else [Fill(remaining, price, matched, None, WsOrderUpdate)], pending)
  {
  }

  function OnReport(w: Watch, matched: real): (Watch, seq<Fill>) {
    if matched - w.last <= 0.0 then (w, [])
    else
      var (fills, rest) := Drain(w.price, matched, matched - w.last, w.pending);
      (w.(last := matched, pending := rest), fills)
  }

  function OnTrade(w: Watch, id: string, size: real, price: real): Watch {
    if id in w.seen || size <= 0.0 || price <= 0.0 then w
    else w.(seen := w.seen + {id}, pending := w.pending + [Lot(id, size, price)])
  }

  // The poll after a reconnect prices its whole difference at the limit and leaves the
  // pending trades alone.
  function OnReconnect(w: Watch, matched: real): (Watch, seq<Fill>) {
    if matched - w.last <= 0.0 then (w, [])
    else (w.(last := matched), [Fill(matched - w.last, w.price, matched, None, ReconnectReconcile)])
  }

  // ---- Runs ----

  datatype Event =
    | Report(matched: real)
    | Trade(id: string, size: real, price: real)
    | Poll(matched: real)

  // A watch, the trades it has accepted and the fills it has sent out, both oldest first.
  datatype Ledger = Ledger(w: Watch, accepted: seq<Lot>, fills: seq<Fill>)

  function Step(l: Ledger, e: Event): Ledger {
    match e
    case Report(m) => var (w, fills) := OnReport(l.w, m); l.(w := w, fills := l.fills + fills)
    case Poll(m) => var (w, fills) := OnReconnect(l.w, m); l.(w := w, fills := l.fills + fills)
    case Trade(id, size, price) =>
      var w := OnTrade(l.w, id, size, price);
      l.(w := w, accepted := if w == l.w then l.accepted else l.accepted + [Lot(id, size, price)])
  }

  function Run(l: Ledger, events: seq<Event>): Ledger
    decreases |events|
  {
    if events == [] then l else Run(Step(l, events[0]), events[1..])
  }

  function Opening(price: real, initial: real): Ledger {
    Ledger(NewWatch(price, initial), [], [])
  }

  // ---- Sums over fills ----

  function SumBy(measure: Fill -> real, fills: seq<Fill>): real {
    if fills == [] then 0.0 else measure(fills[0]) + SumBy(measure, fills[1..])
  }

  function SizeOf(f: Fill): real {
    f.size
  }

  function ValueOf(f: Fill): real {
    f.size * f.price
  }

  function TradedOf(f: Fill): real {
    if f.tradeId.Some? then f.size else 0.0
  }

  function TradedValueOf(f: Fill): real {
    if f.tradeId.Some? then f.size * f.price else 0.0
  }

  function Size(fills: seq<Fill>): real {
    SumBy(SizeOf, fills)
  }

  function Value(fills: seq<Fill>): real {
    SumBy(ValueOf, fills)
  }

  // Of the fills that carry a trade id.
  function Traded(fills: seq<Fill>): real {
    SumBy(TradedOf, fills)
  }

  function TradedValue(fills: seq<Fill>): real {
    SumBy(TradedValueOf, fills)
  }

  function FilledUnder(fills: seq<Fill>, id: string): real {
    if fills == [] then 0.0
    else (if fills[0].tradeId == Some(id) then fills[0].size else 0.0) + FilledUnder(fills[1..], id)
  }

  lemma {:induction false} SumOfParts(measure: Fill -> real, a: seq<Fill>, b: seq<Fill>)
    ensures SumBy(measure, a + b) == SumBy(measure, a) + SumBy(measure, b)
  {
    if a == [] {
      assert a + b == b;
    } else {
      assert (a + b)[1..] == a[1..] + b;
      SumOfParts(measure, a[1..], b);
    }
  }

  lemma SumOfOne(measure: Fill -> real, f: Fill)
    ensures SumBy(measure, [f]) == measure(f)
  {
    assert [f][1..] == [];
  }

  lemma {:induction false} FilledUnderParts(a: seq<Fill>, b: seq<Fill>, id: string)
    ensures FilledUnder(a + b, id) == FilledUnder(a, id) + FilledUnder(b, id)
  {
    if a == [] {
      assert a + b == b;
    } else {
      assert (a + b)[1..] == a[1..] + b;
      FilledUnderParts(a[1..], b, id);
    }
  }

  // Every fill without a trade id is at the limit price.
  predicate LimitPriced(fills: seq<Fill>, price: real) {
    forall k :: 0 <= k < |fills| && fills[k].tradeId.None? ==> fills[k].price == price
  }

  lemma {:induction false} ValueSplits(fills: seq<Fill>, price: real)
    requires LimitPriced(fills, price)
    ensures Value(fills) == TradedValue(fills) + (Size(fills) - Traded(fills)) * price
  {
    if fills != [] {
      ValueSplits(fills[1..], price);
    }
  }

  // Every fill is positive, and the totals they announce are the running sums from base.
  ghost predicate RunningTotals(base: real, fills: seq<Fill>) {
    forall k :: 0 <= k < |fills| ==> fills[k].size > 0.0 && fills[k].total == base + Size(fills[..k + 1])
  }

  // Every fill under a trade id is at the price of a trade with that id.
  ghost predicate AtTradePrices(fills: seq<Fill>, lots: seq<Lot>) {
    forall k :: 0 <= k < |fills| && fills[k].tradeId.Some? ==>
      exists i :: 0 <= i < |lots| && lots[i].id == fills[k].tradeId.value && lots[i].price == fills[k].price
  }

  lemma RunningTotalsAppend(base: real, a: seq<Fill>, b: seq<Fill>)
    requires RunningTotals(base, a) && RunningTotals(base + Size(a), b)
    ensures RunningTotals(base, a + b)
  {
    forall k | 0 <= k < |a + b|
      ensures (a + b)[k].size > 0.0 && (a + b)[k].total == base + Size((a + b)[..k + 1])
    {
      if k < |a| {
        assert (a + b)[..k + 1] == a[..k + 1];
      } else {
        assert (a + b)[..k + 1] == a + b[..k - |a| + 1];
        SumOfParts(SizeOf, a, b[..k - |a| + 1]);
      }
    }
  }

  lemma {:induction false} RunningTail(base: real, fills: seq<Fill>)
    requires RunningTotals(base, fills) && fills != []
    ensures fills[0].size > 0.0 && fills[0].total == base + fills[0].size
    ensures RunningTotals(base + fills[0].size, fills[1..])
  {
    assert fills[..1] == [fills[0]];
    SumOfOne(SizeOf, fills[0]);
    forall k | 0 <= k < |fills[1..]|
      ensures fills[1..][k].size > 0.0 && fills[1..][k].total == base + fills[0].size + Size(fills[1..][..k + 1])
    {
      assert fills[..k + 2] == [fills[0]] + fills[1..][..k + 1];
      SumOfParts(SizeOf, [fills[0]], fills[1..][..k + 1]);
    }
  }

  // ---- One match ----

  /** Splitting a match conserves its quantity and takes the trades from the front. */
  lemma {:induction false} DrainSizes(price: real, matched: real, remaining: real, pending: seq<Lot>)
    requires Positive(pending) && remaining >= 0.0
    ensures var (fills, rest) := Drain(price, matched, remaining, pending);
            var q := Min(remaining, Total(pending));
            0.0 <= q && Size(fills) == remaining && Traded(fills) == q && rest == Skip(pending, q)
    decreases |pending|
  {
    TotalIsPositive(pending);
    if remaining > 0.0 && pending != [] {
      TotalIsPositive(pending[1..]);
      if Min(remaining, pending[0].size) == pending[0].size {
        DrainSizes(price, matched, remaining - pending[0].size, pending[1..]);
        DrainHead(price, matched, remaining, pending);
      }
    }
    if remaining > 0.0 {
      SumOfOne(SizeOf, Drain(price, matched, remaining, pending).0[0]);
      SumOfOne(TradedOf, Drain(price, matched, remaining, pending).0[0]);
    }
  }

  // The head trade is used up whole: the rest of the split is a split of the rest.
  lemma DrainHead(price: real, matched: real, remaining: real, pending: seq<Lot>)
    requires pending != [] && remaining >= pending[0].size > 0.0
    ensures var (fills, rest) := Drain(price, matched, remaining, pending);
            var (fills', rest') := Drain(price, matched, remaining - pending[0].size, pending[1..]);
            var head := Fill(pending[0].size, pending[0].price, matched - remaining + pending[0].size,
                             Some(pending[0].id), WsTrade);
            fills == [head] + fills' && fills[1..] == fills' && fills[0] == head && rest == rest'
    ensures matched - remaining + pending[0].size == matched - (remaining - pending[0].size)
  {
  }

  /** Each part is priced at its trade, and only the excess at the limit. */
  lemma {:induction false} DrainValues(price: real, matched: real, remaining: real, pending: seq<Lot>)
    requires Positive(pending) && remaining >= 0.0
    ensures var fills := Drain(price, matched, remaining, pending).0;
            TradedValue(fills) == Cost(pending, Min(remaining, Total(pending))) && LimitPriced(fills, price)
    decreases |pending|
  {
    TotalIsPositive(pending);
    if remaining > 0.0 {
      SumOfOne(TradedValueOf, Drain(price, matched, remaining, pending).0[0]);
      if pending != [] {
        TotalIsPositive(pending[1..]);
        if Min(remaining, pending[0].size) == pending[0].size {
          DrainValues(price, matched, remaining - pending[0].size, pending[1..]);
          DrainHead(price, matched, remaining, pending);
          assert Min(remaining - pending[0].size, Total(pending[1..])) ==
                 Min(remaining, Total(pending)) - pending[0].size;
        }
      }
    }
  }

  /** What is filled under a trade id is what leaves the pending trades under it. */
  lemma {:induction false} DrainUnder(price: real, matched: real, remaining: real, pending: seq<Lot>, id: string)
    requires Positive(pending)
    ensures var (fills, rest) := Drain(price, matched, remaining, pending);
            FilledUnder(fills, id) + Under(rest, id) == Under(pending, id)
    decreases |pending|
  {
    if remaining > 0.0 && pending != [] {
      if Min(remaining, pending[0].size) == pending[0].size {
        DrainUnder(price, matched, remaining - pending[0].size, pending[1..], id);
        DrainHead(price, matched, remaining, pending);
      } else {
        var rest := Drain(price, matched, remaining, pending).1;
        assert rest[1..] == pending[1..];
      }
    }
  }

  lemma {:induction false} DrainTotals(price: real, matched: real, remaining: real, pending: seq<Lot>)
    requires Positive(pending)
    ensures RunningTotals(matched - remaining, Drain(price, matched, remaining, pending).0)
    ensures AtTradePrices(Drain(price, matched, remaining, pending).0, pending)
    decreases |pending|
  {
    if remaining > 0.0 {
      var all := Drain(price, matched, remaining, pending).0;
      assert all[..1] == [all[0]];
      SumOfOne(SizeOf, all[0]);
      if pending != [] && Min(remaining, pending[0].size) == pending[0].size {
        DrainTotals(price, matched, remaining - pending[0].size, pending[1..]);
        DrainHead(price, matched, remaining, pending);
        assert [all[0]][..1] == [all[0]];
        RunningTotalsAppend(matched - remaining, [all[0]], all[1..]);
        assert [pending[0]][0] == pending[0];
        AtTradePricesAppend([all[0]], [pending[0]], all[1..], pending[1..]);
        assert [pending[0]] + pending[1..] == pending;
      }
    }
  }

  lemma AtTradePricesAppend(a: seq<Fill>, lots: seq<Lot>, b: seq<Fill>, more: seq<Lot>)
    requires AtTradePrices(a, lots) && AtTradePrices(b, more)
    ensures AtTradePrices(a + b, lots + more)
  {
    forall k | 0 <= k < |a + b| && (a + b)[k].tradeId.Some?
      ensures exists i :: 0 <= i < |lots + more| && (lots + more)[i].id == (a + b)[k].tradeId.value
                          && (lots + more)[i].price == (a + b)[k].price
    {
      if k < |a| {
        var i :| 0 <= i < |lots| && lots[i].id == a[k].tradeId.value && lots[i].price == a[k].price;
        assert (lots + more)[i] == lots[i];
      } else {
        var f := b[k - |a|];
        var i :| 0 <= i < |more| && more[i].id == f.tradeId.value && more[i].price == f.price;
        assert (lots + more)[|lots| + i] == more[i];
      }
    }
  }
}
