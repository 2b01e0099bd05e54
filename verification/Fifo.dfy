/** A queue of lots that is consumed from the front: what is left after some quantity is
    gone, and what that quantity cost. */
module Fifo {
  datatype Lot = Lot(id: string, size: real, price: real)

  predicate Positive(lots: seq<Lot>) {
    forall i :: 0 <= i < |lots| ==> lots[i].size > 0.0
  }

  function Total(lots: seq<Lot>): real {
    if lots == [] then 0.0 else lots[0].size + Total(lots[1..])
  }

  // The lots that remain once q is taken off the front: whole lots disappear, at most the
  // head is cut.
  function Skip(lots: seq<Lot>, q: real): seq<Lot> {
    if lots == [] || q <= 0.0 then lots
    else if q >= lots[0].size then Skip(lots[1..], q - lots[0].size)
    else [lots[0].(size := lots[0].size - q)] + lots[1..]
  }

  // What the first q cost, each part at its own lot's price.
  function Cost(lots: seq<Lot>, q: real): real {
    if lots == [] || q <= 0.0 then 0.0
    else if q >= lots[0].size then lots[0].size * lots[0].price + Cost(lots[1..], q - lots[0].size)
    else q * lots[0].price
  }

  // The quantity under one id.
  function Under(lots: seq<Lot>, id: string): real {
    if lots == [] then 0.0
    else (if lots[0].id == id then lots[0].size else 0.0) + Under(lots[1..], id)
  }

  lemma {:induction false} SkipKeepsRest(lots: seq<Lot>, q: real)
    requires Positive(lots) && 0.0 <= q <= Total(lots)
    ensures Positive(Skip(lots, q))
    ensures Total(Skip(lots, q)) == Total(lots) - q
  {
    if lots != [] && q > 0.0 {
      if q >= lots[0].size {
        SkipKeepsRest(lots[1..], q - lots[0].size);
      } else {
        assert Skip(lots, q)[1..] == lots[1..];
      }
    }
  }

  lemma {:induction false} SkipTwice(lots: seq<Lot>, a: real, b: real)
    requires Positive(lots) && 0.0 <= a && 0.0 <= b
    ensures Skip(Skip(lots, a), b) == Skip(lots, a + b)
    ensures Cost(lots, a) + Cost(Skip(lots, a), b) == Cost(lots, a + b)
  {
    if lots != [] && a > 0.0 {
      if a >= lots[0].size {
        SkipTwice(lots[1..], a - lots[0].size, b);
        assert a + b - lots[0].size == a - lots[0].size + b;
      } else {
        var cut := Skip(lots, a);
        assert cut[1..] == lots[1..];
        assert b - cut[0].size == a + b - lots[0].size;
        assert a * lots[0].price + cut[0].size * lots[0].price == lots[0].size * lots[0].price;
        assert a * lots[0].price + b * lots[0].price == (a + b) * lots[0].price;
      }
    }
  }

  lemma {:induction false} AppendLot(lots: seq<Lot>, lot: Lot, q: real)
    requires Positive(lots) && q <= Total(lots)
    ensures Skip(lots + [lot], q) == Skip(lots, q) + [lot]
    ensures Cost(lots + [lot], q) == Cost(lots, q)
    ensures Total(lots + [lot]) == Total(lots) + lot.size
  {
    if lots == [] {
      assert Total([lot]) == lot.size;
    } else {
      var all := lots + [lot];
      assert all[0] == lots[0] && all[1..] == lots[1..] + [lot];
      AppendTotal(lots, lot);
      if q >= lots[0].size {
        AppendLot(lots[1..], lot, q - lots[0].size);
      }
    }
  }

  lemma {:induction false} AppendTotal(lots: seq<Lot>, lot: Lot)
    ensures Total(lots + [lot]) == Total(lots) + lot.size
    ensures forall id :: Under(lots + [lot], id) == Under(lots, id) + if lot.id == id then lot.size else 0.0
  {
    if lots == [] {
      assert lots + [lot] == [lot];
    } else {
      assert (lots + [lot])[1..] == lots[1..] + [lot];
      AppendTotal(lots[1..], lot);
    }
  }

  lemma {:induction false} TotalIsPositive(lots: seq<Lot>)
    requires Positive(lots)
    ensures Total(lots) >= 0.0 && (Total(lots) == 0.0 <==> lots == [])
  {
    if lots != [] {
      TotalIsPositive(lots[1..]);
    }
  }

  // What all the lots cost.
  function Worth(lots: seq<Lot>): real {
    if lots == [] then 0.0 else lots[0].size * lots[0].price + Worth(lots[1..])
  }

  lemma {:induction false} FullCost(lots: seq<Lot>)
    requires Positive(lots)
    ensures Cost(lots, Total(lots)) == Worth(lots)
  {
    TotalIsPositive(lots);
    if lots != [] {
      TotalIsPositive(lots[1..]);
      FullCost(lots[1..]);
    }
  }

  lemma {:induction false} CostAndRest(lots: seq<Lot>, q: real)
    requires Positive(lots)
    ensures Cost(lots, q) + Worth(Skip(lots, q)) == Worth(lots)
  {
    if lots != [] && 0.0 < q {
      if q >= lots[0].size {
        CostAndRest(lots[1..], q - lots[0].size);
      } else {
        assert Skip(lots, q)[1..] == lots[1..];
        assert q * lots[0].price + (lots[0].size - q) * lots[0].price == lots[0].size * lots[0].price;
      }
    }
  }

  lemma {:induction false} WorthAppend(lots: seq<Lot>, lot: Lot)
    ensures Worth(lots + [lot]) == Worth(lots) + lot.size * lot.price
  {
    if lots == [] {
      assert lots + [lot] == [lot];
    } else {
      assert (lots + [lot])[1..] == lots[1..] + [lot];
      WorthAppend(lots[1..], lot);
    }
  }
}
