/** Which rows and which columns of the trade table the profit figures are computed from. */
module ProfitColumns {
  import opened Prelude
  import opened Fifo
  import opened TradeProfit

  // ---- The other side's columns make no difference ----

  // Row for row the same but for the leader's columns, or but for the follower's.
  predicate SameApartFrom(leader: bool, rows: seq<TradeRow>, rows': seq<TradeRow>) {
    |rows| == |rows'| && forall i :: 0 <= i < |rows| ==> RowApartFrom(leader, rows[i], rows'[i])
  }

  predicate RowApartFrom(leader: bool, t: TradeRow, t': TradeRow) {
    && t.createdAtMs == t'.createdAtMs && t.buy == t'.buy
    && if leader then t.sizeMatched == t'.sizeMatched && t.price == t'.price
       else t.leaderSize == t'.leaderSize && t.leaderPrice == t'.leaderPrice
  }

  lemma {:induction false} InsertedApart(leader: bool, rows: seq<TradeRow>, rows': seq<TradeRow>, t: TradeRow, t': TradeRow)
    requires SameApartFrom(leader, rows, rows') && RowApartFrom(leader, t, t')
    ensures SameApartFrom(leader, Inserted(rows, t), Inserted(rows', t'))
  {
    if rows != [] && rows[|rows| - 1].createdAtMs > t.createdAtMs {
      InsertedApart(leader, rows[..|rows| - 1], rows'[..|rows| - 1], t, t');
    }
  }

  lemma {:induction false} SortedApart(leader: bool, rows: seq<TradeRow>, rows': seq<TradeRow>)
    requires SameApartFrom(leader, rows, rows')
    ensures SameApartFrom(leader, SortByTime(rows), SortByTime(rows'))
  {
    if rows != [] {
      var n := |rows| - 1;
      SortedApart(leader, rows[..n], rows'[..n]);
      InsertedApart(leader, SortByTime(rows[..n]), SortByTime(rows'[..n]), rows[n], rows'[n]);
    }
  }

  lemma {:induction false} DealsApart(leader: bool, rows: seq<TradeRow>, rows': seq<TradeRow>)
    requires SameApartFrom(leader, rows, rows')
    ensures Deals(rows, !leader) == Deals(rows', !leader)
  {
    if rows != [] {
      DealsApart(leader, rows[..|rows| - 1], rows'[..|rows| - 1]);
      assert RowApartFrom(leader, rows[|rows| - 1], rows'[|rows| - 1]);
    }
  }

  /** The follower's figures do not depend on the leader's columns, nor the leader's on the
      follower's. */
  lemma OtherColumnsDoNotMatter(leader: bool, rows: seq<TradeRow>, rows': seq<TradeRow>, mid: Option<real>)
    requires SameApartFrom(leader, rows, rows')
    ensures Realized(rows, !leader) == Realized(rows', !leader)
    ensures Overall(rows, mid, !leader) == Overall(rows', mid, !leader)
  {
    SortedApart(leader, rows, rows');
    DealsApart(leader, SortByTime(rows), SortByTime(rows'));
  }

  // ---- Idle rows make no difference ----

  // No positive quantity, or no price, in the columns looked at.
  predicate Idle(t: TradeRow, useLeader: bool) {
    if useLeader
    then t.leaderSize.None? || t.leaderSize.value <= 0.0 || t.leaderPrice.None? || t.leaderPrice.value == 0.0
    else t.sizeMatched.None? || t.sizeMatched.value <= 0.0 || t.price.None? || t.price.value == 0.0
  }

  function Active(rows: seq<TradeRow>, useLeader: bool): seq<TradeRow> {
    if rows == [] then []
    else
      var t := rows[|rows| - 1];
      Active(rows[..|rows| - 1], useLeader) + if Idle(t, useLeader) then [] else [t]
  }

  lemma ActiveAppend(rows: seq<TradeRow>, t: TradeRow, useLeader: bool)
    ensures Active(rows + [t], useLeader) == Active(rows, useLeader) + if Idle(t, useLeader) then [] else [t]
  {
    assert (rows + [t])[..|rows|] == rows;
  }

  lemma {:induction false} ActiveAreRows(rows: seq<TradeRow>, useLeader: bool)
    ensures forall k :: 0 <= k < |Active(rows, useLeader)| ==> Active(rows, useLeader)[k] in rows
  {
    if rows != [] {
      ActiveAreRows(rows[..|rows| - 1], useLeader);
    }
  }

  lemma {:induction false} ActiveInserted(rows: seq<TradeRow>, t: TradeRow, useLeader: bool)
    requires InTimeOrder(rows)
    ensures Active(Inserted(rows, t), useLeader) ==
            if Idle(t, useLeader) then Active(rows, useLeader) else Inserted(Active(rows, useLeader), t)
  {
    if rows == [] || rows[|rows| - 1].createdAtMs <= t.createdAtMs {
      ActiveAppend(rows, t, useLeader);
      ActiveAreRows(rows, useLeader);
      assert Active(rows, useLeader) + [] == Active(rows, useLeader);
    } else {
      var before, last := rows[..|rows| - 1], rows[|rows| - 1];
      ActiveInserted(before, t, useLeader);
      ActiveAppend(Inserted(before, t), last, useLeader);
      assert (Active(before, useLeader) + [last])[..|Active(before, useLeader)|] == Active(before, useLeader);
      assert forall x: seq<TradeRow> :: x + [] == x;
    }
  }

  lemma {:induction false} ActiveSorted(rows: seq<TradeRow>, useLeader: bool)
    ensures Active(SortByTime(rows), useLeader) == SortByTime(Active(rows, useLeader))
  {
    if rows != [] {
      var before, last := rows[..|rows| - 1], rows[|rows| - 1];
      ActiveSorted(before, useLeader);
      SortIsInTime(before);
      ActiveInserted(SortByTime(before), last, useLeader);
      assert (Active(before, useLeader) + [last])[..|Active(before, useLeader)|] == Active(before, useLeader);
      assert Active(before, useLeader) + [] == Active(before, useLeader);
    }
  }

  lemma {:induction false} IdleMakeNoDeals(rows: seq<TradeRow>, useLeader: bool)
    ensures Deals(rows, useLeader) == Deals(Active(rows, useLeader), useLeader)
  {
    if rows != [] {
      var before, last := rows[..|rows| - 1], rows[|rows| - 1];
      IdleMakeNoDeals(before, useLeader);
      var active := Active(before, useLeader);
      assert (active + [last])[..|active|] == active;
      assert active + [] == active;
      assert Deals(before, useLeader) + [] == Deals(before, useLeader);
    }
  }

  lemma {:induction false} ActiveSkips(before: seq<TradeRow>, idle: TradeRow, after: seq<TradeRow>, useLeader: bool)
    requires Idle(idle, useLeader)
    ensures Active(before + [idle] + after, useLeader) == Active(before + after, useLeader)
    decreases |after|
  {
    if after == [] {
      assert before + [idle] + after == before + [idle] && before + after == before;
      ActiveAppend(before, idle, useLeader);
      assert Active(before, useLeader) + [] == Active(before, useLeader);
    } else {
      var rest, last := after[..|after| - 1], after[|after| - 1];
      assert before + [idle] + after == (before + [idle] + rest) + [last] && before + after == (before + rest) + [last];
      ActiveSkips(before, idle, rest, useLeader);
      ActiveAppend(before + [idle] + rest, last, useLeader);
      ActiveAppend(before + rest, last, useLeader);
    }
  }

  /** A row without a positive quantity, or with a missing or zero price, in the columns
      looked at changes no figure, wherever it stands. */
  lemma IdleRowChangesNothing(before: seq<TradeRow>, idle: TradeRow, after: seq<TradeRow>, mid: Option<real>, useLeader: bool)
    requires Idle(idle, useLeader)
    ensures Realized(before + [idle] + after, useLeader) == Realized(before + after, useLeader)
    ensures Overall(before + [idle] + after, mid, useLeader) == Overall(before + after, mid, useLeader)
  {
    ActiveSkips(before, idle, after, useLeader);
    ActiveSorted(before + [idle] + after, useLeader);
    ActiveSorted(before + after, useLeader);
    IdleMakeNoDeals(SortByTime(before + [idle] + after), useLeader);
    IdleMakeNoDeals(SortByTime(before + after), useLeader);
  }

  // ---- What a few rows make ----

  // The row trades q shares at price p in the columns looked at.
  predicate Trades(t: TradeRow, q: real, p: real, useLeader: bool) {
    if useLeader then t.leaderSize == Some(q) && t.leaderPrice == Some(p) else t.sizeMatched == Some(q) && t.price == Some(p)
  }

  lemma DealsOfTwo(a: TradeRow, b: TradeRow, qa: real, pa: real, qb: real, pb: real, useLeader: bool)
    requires a.createdAtMs <= b.createdAtMs && qa > 0.0 && qb > 0.0 && pa != 0.0 && pb != 0.0
    requires Trades(a, qa, pa, useLeader) && Trades(b, qb, pb, useLeader)
    ensures SortByTime([a, b]) == [a, b]
    ensures Deals([a, b], useLeader) == [Deal(a.buy, qa, pa), Deal(b.buy, qb, pb)]
  {
    assert [a, b][..1] == [a] && [a][..0] == [];
    assert SortByTime([a]) == Inserted([], a) == [a];
    assert Inserted([a], b) == [a] + [b] == [a, b];
    assert Deals([a], useLeader) == [Deal(a.buy, qa, pa)];
  }

  lemma BookedTwo(d: Deal, e: Deal)
    requires d.buy
    ensures Booked([d]) == Account(d.qty * d.price, 0.0, d.qty, 0.0) && Bought([d]) == [Lot("", d.qty, d.price)]
    ensures Booked([d, e]) == Book(Booked([d]), e)
    ensures Bought([d, e]) == Bought([d]) + if e.buy then [Lot("", e.qty, e.price)] else []
  {
    assert [d][..0] == [] && [d, e][..1] == [d];
  }

  /** Buying q shares at one price and selling them at another realizes q times the
      difference, in the follower's columns or the leader's. */
  lemma BuyThenSell(buy: TradeRow, sell: TradeRow, q: real, p1: real, p2: real, useLeader: bool)
    requires buy.buy && !sell.buy && buy.createdAtMs <= sell.createdAtMs && q > 0.0 && p1 != 0.0 && p2 != 0.0
    requires Trades(buy, q, p1, useLeader) && Trades(sell, q, p2, useLeader)
    ensures Realized([buy, sell], useLeader) == q * (p2 - p1)
  {
    DealsOfTwo(buy, sell, q, p1, q, p2, useLeader);
    BookedTwo(Deal(true, q, p1), Deal(false, q, p2));
    hide Deals, SortByTime, Booked, Bought;
    var lots := [Lot("", q, p1)];
    assert lots[1..] == [] && lots + [] == lots;
    assert Cost(lots, q) == q * p1;
  }

  /** What is bought and kept is worth the mid price over what it cost. */
  lemma BuyAndHold(buy: TradeRow, q: real, p: real, mid: real, useLeader: bool)
    requires buy.buy && q > 0.0 && p != 0.0 && Trades(buy, q, p, useLeader)
    ensures Realized([buy], useLeader) == Overall([buy], None, useLeader) == 0.0
    ensures Overall([buy], Some(mid), useLeader) == q * (mid - p)
  {
    assert [buy][..0] == [];
    assert SortByTime([buy]) == Inserted([], buy) == [buy];
    assert Deals([buy], useLeader) == [Deal(true, q, p)];
    BookedTwo(Deal(true, q, p), Deal(true, q, p));
    hide Deals, SortByTime, Booked, Bought;
    assert Cost([Lot("", q, p)], 0.0) == 0.0;
  }

  lemma DealsOfOneMore(rows: seq<TradeRow>, t: TradeRow, q: real, p: real, useLeader: bool)
    requires rows != [] && SortByTime(rows) == rows && rows[|rows| - 1].createdAtMs <= t.createdAtMs
    requires Trades(t, q, p, useLeader) && q > 0.0 && p != 0.0
    ensures SortByTime(rows + [t]) == rows + [t]
    ensures Deals(rows + [t], useLeader) == Deals(rows, useLeader) + [Deal(t.buy, q, p)]
  {
    assert (rows + [t])[..|rows|] == rows;
  }

  lemma SoldFromTwo(q: real, p1: real, p2: real, p3: real)
    requires q > 0.0
    ensures var deals := [Deal(true, q, p1), Deal(true, q, p2)] + [Deal(false, q, p3)];
            Booked(deals).received - Cost(Bought(deals), Booked(deals).matched) == q * (p3 - p1)
  {
    var two, sale := [Deal(true, q, p1), Deal(true, q, p2)], Deal(false, q, p3);
    var lots := [Lot("", q, p1)] + [Lot("", q, p2)];
    BookedTwo(two[0], two[1]);
    OneMoreDeal(two, sale);
    hide Booked, Bought;
    assert Cost(lots, q) == q * p1 + Cost(lots[1..], 0.0) == q * p1;
    assert Booked(two) == Account(q * p1 + q * p2, 0.0, q + q, 0.0);
  }

  /** Of two purchases the first is sold first. */
  lemma FirstLotFirst(first: TradeRow, second: TradeRow, sell: TradeRow, q: real, p1: real, p2: real, p3: real, useLeader: bool)
    requires first.buy && second.buy && !sell.buy && q > 0.0 && p1 != 0.0 && p2 != 0.0 && p3 != 0.0
    requires first.createdAtMs <= second.createdAtMs <= sell.createdAtMs
    requires Trades(first, q, p1, useLeader) && Trades(second, q, p2, useLeader) && Trades(sell, q, p3, useLeader)
    ensures Realized([first, second, sell], useLeader) == q * (p3 - p1)
  {
    DealsOfTwo(first, second, q, p1, q, p2, useLeader);
    DealsOfOneMore([first, second], sell, q, p3, useLeader);
    hide Deals, SortByTime, Booked, Bought, Cost, Trades;
    SoldFromTwo(q, p1, p2, p3);
    assert [first, second] + [sell] == [first, second, sell];
  }
}
