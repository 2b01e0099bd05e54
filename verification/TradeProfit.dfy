/** The profit shown beside the trade chart: sales are matched against purchases first in,
    first out, and what is left is valued at the mid price. */
module TradeProfit {
  import opened Prelude
  import opened Fifo

  datatype TradeRow = TradeRow(createdAtMs: int, buy: bool, sizeMatched: Option<real>, price: Option<real>,
                               leaderSize: Option<real>, leaderPrice: Option<real>)

  // ---- Rows in time order, as the language's stable sort leaves them ----

  function Inserted(rows: seq<TradeRow>, t: TradeRow): seq<TradeRow> {
    if rows == [] || rows[|rows| - 1].createdAtMs <= t.createdAtMs then rows + [t]
    else Inserted(rows[..|rows| - 1], t) + [rows[|rows| - 1]]
  }

  function SortByTime(rows: seq<TradeRow>): seq<TradeRow> {
    if rows == [] then [] else Inserted(SortByTime(rows[..|rows| - 1]), rows[|rows| - 1])
  }

  predicate InTimeOrder(rows: seq<TradeRow>) {
    forall i, j :: 0 <= i < j < |rows| ==> rows[i].createdAtMs <= rows[j].createdAtMs
  }

  // The rows of one moment, in the order in which they stand.
  function RowsAt(rows: seq<TradeRow>, ms: int): seq<TradeRow> {
    if rows == [] then []
    else RowsAt(rows[..|rows| - 1], ms) + if rows[|rows| - 1].createdAtMs == ms then [rows[|rows| - 1]] else []
  }

  lemma {:induction false} InsertedInTime(rows: seq<TradeRow>, t: TradeRow)
    requires InTimeOrder(rows)
    ensures InTimeOrder(Inserted(rows, t))
    ensures var latest := if rows == [] || rows[|rows| - 1].createdAtMs <= t.createdAtMs then t else rows[|rows| - 1];
            forall i :: 0 <= i < |Inserted(rows, t)| ==> Inserted(rows, t)[i].createdAtMs <= latest.createdAtMs
  {
    if rows != [] && rows[|rows| - 1].createdAtMs > t.createdAtMs {
      InsertedInTime(rows[..|rows| - 1], t);
    }
  }

  lemma {:induction false} InsertedIsAdded(rows: seq<TradeRow>, t: TradeRow)
    ensures multiset(Inserted(rows, t)) == multiset(rows) + multiset{t}
  {
    if rows != [] && rows[|rows| - 1].createdAtMs > t.createdAtMs {
      InsertedIsAdded(rows[..|rows| - 1], t);
      assert rows == rows[..|rows| - 1] + [rows[|rows| - 1]];
    }
  }

  // Among the rows of its moment an inserted row is the last.
  lemma {:induction false} InsertedLast(rows: seq<TradeRow>, t: TradeRow, ms: int)
    ensures RowsAt(Inserted(rows, t), ms) == RowsAt(rows, ms) + if t.createdAtMs == ms then [t] else []
  {
    if rows == [] || rows[|rows| - 1].createdAtMs <= t.createdAtMs {
      assert (rows + [t])[..|rows|] == rows;
    } else {
      var before, last := rows[..|rows| - 1], rows[|rows| - 1];
      InsertedLast(before, t, ms);
      assert (Inserted(before, t) + [last])[..|Inserted(before, t)|] == Inserted(before, t);
      assert forall x: seq<TradeRow> :: x + [] == x;
    }
  }

  lemma {:induction false} SortIsComplete(rows: seq<TradeRow>)
    ensures multiset(SortByTime(rows)) == multiset(rows)
  {
    if rows != [] {
      var before, last := rows[..|rows| - 1], rows[|rows| - 1];
      SortIsComplete(before);
      InsertedIsAdded(SortByTime(before), last);
      assert rows == before + [last];
    }
  }

  lemma {:induction false} SortIsInTime(rows: seq<TradeRow>)
    ensures InTimeOrder(SortByTime(rows))
  {
    if rows != [] {
      SortIsInTime(rows[..|rows| - 1]);
      InsertedInTime(SortByTime(rows[..|rows| - 1]), rows[|rows| - 1]);
    }
  }

  lemma {:induction false} SortKeepsMoments(rows: seq<TradeRow>, ms: int)
    ensures RowsAt(SortByTime(rows), ms) == RowsAt(rows, ms)
  {
    if rows != [] {
      SortKeepsMoments(rows[..|rows| - 1], ms);
      InsertedLast(SortByTime(rows[..|rows| - 1]), rows[|rows| - 1], ms);
    }
  }

  /** The sorted rows are the rows, in time order, and those of one moment keep their order. */
  lemma SortIsStable(rows: seq<TradeRow>, ms: int)
    ensures InTimeOrder(SortByTime(rows)) && multiset(SortByTime(rows)) == multiset(rows)
    ensures RowsAt(SortByTime(rows), ms) == RowsAt(rows, ms)
  {
    hide InTimeOrder, SortByTime, RowsAt;
    SortIsInTime(rows);
    SortIsComplete(rows);
    SortKeepsMoments(rows, ms);
  }

  datatype Deal = Deal(buy: bool, qty: real, price: real)

  function Quantity(t: TradeRow, useLeader: bool): Option<real> {
    if useLeader then t.leaderSize else t.sizeMatched
  }

  function Price(t: TradeRow, useLeader: bool): Option<real> {
    if useLeader then t.leaderPrice else t.price
  }

  // Rows without a positive quantity or with no or zero price do not count.
  predicate Counts(t: TradeRow, useLeader: bool) {
    && Quantity(t, useLeader).Some? && Quantity(t, useLeader).value > 0.0
    && Price(t, useLeader).Some? && Price(t, useLeader).value != 0.0
  }

  function Deals(trades: seq<TradeRow>, useLeader: bool): seq<Deal> {
    if trades == [] then []
    else
      var t := trades[|trades| - 1];
      Deals(trades[..|trades| - 1], useLeader) +
      if Counts(t, useLeader) then [Deal(t.buy, Quantity(t, useLeader).value, Price(t, useLeader).value)] else []
  }

  // The account without any lots: money out, money in for what could be matched, shares
  // bought and shares matched.
  datatype Account = Account(spent: real, received: real, bought: real, matched: real)

  function Book(a: Account, d: Deal): Account {
    if d.buy then a.(spent := a.spent + d.qty * d.price, bought := a.bought + d.qty)
    else
      var q := Min(d.qty, a.bought - a.matched);
      a.(received := a.received + q * d.price, matched := a.matched + q)
  }

  function Booked(deals: seq<Deal>): Account {
    if deals == [] then Account(0.0, 0.0, 0.0, 0.0)
    else Book(Booked(deals[..|deals| - 1]), deals[|deals| - 1])
  }

  // Everything that was bought, lot by lot.
  function Bought(deals: seq<Deal>): seq<Lot> {
    if deals == [] then []
    else
      var d := deals[|deals| - 1];
      Bought(deals[..|deals| - 1]) + if d.buy then [Lot("", d.qty, d.price)] else []
  }

  // First in, first out: the matched shares are the first ones bought. The queue is what
  // is left of the lots, and the realized profit is what the matched shares brought in
  // over what they cost.
  ghost predicate FirstInFirstOut(deals: seq<Deal>, queue: seq<Lot>, realized: real) {
    Agrees(Booked(deals), Bought(deals), queue, realized)
  }

  ghost predicate Agrees(a: Account, buys: seq<Lot>, queue: seq<Lot>, realized: real) {
    && Positive(buys) && Total(buys) == a.bought && Worth(buys) == a.spent
    && 0.0 <= a.matched <= a.bought
    && queue == Skip(buys, a.matched)
    && realized == a.received - Cost(buys, a.matched)
  }

  lemma BuyAgrees(a: Account, buys: seq<Lot>, queue: seq<Lot>, realized: real, d: Deal)
    requires Agrees(a, buys, queue, realized) && d.buy && d.qty > 0.0
    ensures Agrees(Book(a, d), buys + [Lot("", d.qty, d.price)], queue + [Lot("", d.qty, d.price)], realized)
  {
    hide Skip, Cost, Total, Worth;
    AppendLot(buys, Lot("", d.qty, d.price), a.matched);
    WorthAppend(buys, Lot("", d.qty, d.price));
  }

  // What a sale of q shares brings over what they cost.
  function Gain(queue: seq<Lot>, q: real, price: real): real {
    q * price - Cost(queue, q)
  }

  lemma SaleAgrees(a: Account, buys: seq<Lot>, queue: seq<Lot>, realized: real, d: Deal)
    requires Agrees(a, buys, queue, realized) && !d.buy && d.qty > 0.0
    ensures Positive(queue)  // as Sell requires
    ensures var q := Min(d.qty, Total(queue));
            Agrees(Book(a, d), buys, Skip(queue, q), realized + Gain(queue, q, d.price))
  {
    hide Cost, Worth, Skip, Total;
    var q := Min(d.qty, Total(queue));
    SkipKeepsRest(buys, a.matched);
    TotalIsPositive(queue);
    SkipTwice(buys, a.matched, q);
    assert q == Min(d.qty, a.bought - a.matched);
    assert Book(a, d) == Account(a.spent, a.received + q * d.price, a.bought, a.matched + q);
  }

  /** One sale against the queue. */
  method Sell(queue: seq<Lot>, qty: real, price: real) returns (left: seq<Lot>, gain: real)
    requires Positive(queue) && qty > 0.0
    ensures left == Skip(queue, Min(qty, Total(queue)))
    ensures gain == Gain(queue, Min(qty, Total(queue)), price)
  {
    hide Skip, Total, Gain;
    left, gain := queue, 0.0;
    var remaining := qty;
    ghost var sold := 0.0;
    TotalIsPositive(queue);
    NothingSold(queue, price);
    while remaining > 0.0 && |left| > 0
      invariant 0.0 <= sold <= Total(queue) && remaining == qty - sold && remaining >= 0.0
      invariant left == Skip(queue, sold) && Positive(left) && Total(left) == Total(queue) - sold
      invariant gain == Gain(queue, sold, price)
      decreases |left|, remaining > 0.0
    {
      var front := left[0];
      var matched := Min(remaining, front.size);
      HeadFits(left);
      SellStep(queue, sold, matched, price);
      gain := gain + matched * (price - front.price);
      remaining := remaining - matched;
      left := if front.size - matched <= 0.0 then left[1..] else [front.(size := front.size - matched)] + left[1..];
      sold := sold + matched;
    }
    TotalIsPositive(left);
  }

  lemma HeadFits(lots: seq<Lot>)
    requires Positive(lots) && lots != []
    ensures lots[0].size <= Total(lots)
  {
    TotalIsPositive(lots[1..]);
  }

  lemma NothingSold(queue: seq<Lot>, price: real)
    ensures Skip(queue, 0.0) == queue && Gain(queue, 0.0, price) == 0.0
  {
  }

  lemma SellStep(queue: seq<Lot>, sold: real, matched: real, price: real)
    requires Positive(queue) && 0.0 <= sold && Skip(queue, sold) != []
    requires 0.0 < matched <= Skip(queue, sold)[0].size && sold + matched <= Total(queue)
    ensures var left := Skip(queue, sold);
            && Gain(queue, sold + matched, price) == Gain(queue, sold, price) + matched * (price - left[0].price)
            && Skip(queue, sold + matched) ==
               (if left[0].size - matched <= 0.0 then left[1..]
                else [left[0].(size := left[0].size - matched)] + left[1..])
            && Positive(Skip(queue, sold + matched))
            && Total(Skip(queue, sold + matched)) == Total(queue) - (sold + matched)
  {
    var left := Skip(queue, sold);
    hide Skip, Cost, Total;
    SkipTwice(queue, sold, matched);
    SkipKeepsRest(queue, sold + matched);
    FromHead(left, matched);
    GainStep(sold, matched, price, left[0].price);
  }

  lemma FromHead(left: seq<Lot>, matched: real)
    requires left != [] && 0.0 < matched <= left[0].size
    ensures Cost(left, matched) == matched * left[0].price
    ensures Skip(left, matched) ==
            if left[0].size - matched <= 0.0 then left[1..]
            else [left[0].(size := left[0].size - matched)] + left[1..]
  {
  }

  lemma GainStep(sold: real, matched: real, price: real, paid: real)
    ensures sold * price + matched * (price - paid) == (sold + matched) * price - matched * paid
  {
  }

  /** One deal: a purchase joins the queue, a sale is matched against it. */
  method Settle(d: Deal, queue: seq<Lot>, realized: real, ghost before: seq<Deal>)
    returns (queue': seq<Lot>, realized': real)
    requires FirstInFirstOut(before, queue, realized) && d.qty > 0.0
    ensures FirstInFirstOut(before + [d], queue', realized')
  {
    OneMoreDeal(before, d);
    if d.buy {
      BuyAgrees(Booked(before), Bought(before), queue, realized, d);
      queue', realized' := queue + [Lot("", d.qty, d.price)], realized;
    } else {
      SaleAgrees(Booked(before), Bought(before), queue, realized, d);
      hide Agrees, Booked, Bought, Book, Gain, Skip, Total;
      var gain;
      queue', gain := Sell(queue, d.qty, d.price);
      realized' := realized + gain;
    }
  }

  lemma OneMoreDeal(before: seq<Deal>, d: Deal)
    ensures Booked(before + [d]) == Book(Booked(before), d)
    ensures Bought(before + [d]) == if d.buy then Bought(before) + [Lot("", d.qty, d.price)] else Bought(before)
  {
    assert (before + [d])[..|before|] == before;
    assert Bought(before) + [] == Bought(before);
  }

  lemma NothingYet(useLeader: bool)
    ensures FirstInFirstOut(Deals([], useLeader), [], 0.0)
  {
  }

  /** The matching loop over all rows. */
  method MatchTrades(trades: seq<TradeRow>, useLeader: bool) returns (realized: real, buyQueue: seq<Lot>)
    ensures FirstInFirstOut(Deals(trades, useLeader), buyQueue, realized)
  {
    hide FirstInFirstOut, Deals;
    buyQueue, realized := [], 0.0;
    var i := 0;
    NothingYet(useLeader);
    assert trades[..0] == [];
    while i < |trades|
      invariant 0 <= i <= |trades|
      invariant FirstInFirstOut(Deals(trades[..i], useLeader), buyQueue, realized)
    {
      var t := trades[i];
      OneMoreRow(trades, i, useLeader);
      if Counts(t, useLeader) {
        var d := Deal(t.buy, Quantity(t, useLeader).value, Price(t, useLeader).value);
        buyQueue, realized := Settle(d, buyQueue, realized, Deals(trades[..i], useLeader));
      }
      i := i + 1;
    }
    assert trades[..i] == trades;
  }

  lemma OneMoreRow(trades: seq<TradeRow>, i: nat, useLeader: bool)
    requires i < |trades|
    ensures var t := trades[i];
            Deals(trades[..i + 1], useLeader) ==
            if Counts(t, useLeader)
            then Deals(trades[..i], useLeader) + [Deal(t.buy, Quantity(t, useLeader).value, Price(t, useLeader).value)]
            else Deals(trades[..i], useLeader)
  {
    assert trades[..i + 1][..i] == trades[..i];
  }

  /** The chart's figures. The realized part is first in, first out. With a mid price the
      total is money in minus money out plus the remaining shares at the mid price: which
      purchase a sale is matched with makes no difference to it. Without one only the
      realized part counts. */
  method CalcProfit(trades: seq<TradeRow>, midPrice: Option<real>, useLeader: bool)
    returns (realized: real, unrealized: real, total: real)
    ensures realized == Realized(trades, useLeader) && total == Overall(trades, midPrice, useLeader)
    ensures total == realized + unrealized
  {
    var sorted := SortByTime(trades);
    var queue;
    realized, queue := MatchTrades(sorted, useLeader);
    ghost var deals := Deals(sorted, useLeader);
    assert Agrees(Booked(deals), Bought(deals), queue, realized);
    hide SortByTime, Booked, Bought, Revalued, LotFree, Deals, Skip, Cost, Total, Worth;
    unrealized := 0.0;
    if midPrice.Some? {
      unrealized := ValueLots(queue, midPrice.value);
      TotalIsLotFree(Booked(deals), Bought(deals), queue, realized, midPrice.value);
    }
    total := realized + unrealized;
  }

  // What the matched shares brought in over what the first shares bought cost.
  function Realized(trades: seq<TradeRow>, useLeader: bool): real {
    var deals := Deals(SortByTime(trades), useLeader);
    Booked(deals).received - Cost(Bought(deals), Booked(deals).matched)
  }

  function Overall(trades: seq<TradeRow>, midPrice: Option<real>, useLeader: bool): real {
    if midPrice.Some? then LotFree(Booked(Deals(SortByTime(trades), useLeader)), midPrice.value)
    else Realized(trades, useLeader)
  }

  function LotFree(a: Account, mid: real): real {
    a.received - a.spent + (a.bought - a.matched) * mid
  }

  // The lots at the mid price, over what they cost.
  function Revalued(lots: seq<Lot>, mid: real): real {
    Total(lots) * mid - Worth(lots)
  }

  method ValueLots(lots: seq<Lot>, mid: real) returns (value: real)
    ensures value == Revalued(lots, mid)
  {
    value := 0.0;
    var i := 0;
    while i < |lots|
      invariant 0 <= i <= |lots|
      invariant value + Revalued(lots[i..], mid) == Revalued(lots, mid)
    {
      assert lots[i..][1..] == lots[i + 1..];
      value := value + lots[i].size * (mid - lots[i].price);
      i := i + 1;
    }
  }

  lemma TotalIsLotFree(a: Account, buys: seq<Lot>, queue: seq<Lot>, realized: real, mid: real)
    requires Agrees(a, buys, queue, realized)
    ensures realized + Revalued(queue, mid) == LotFree(a, mid)
  {
    SkipKeepsRest(buys, a.matched);
    CostAndRest(buys, a.matched);
  }
}
