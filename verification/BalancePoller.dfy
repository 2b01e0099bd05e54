/** The cached balance of a wallet and the reservations that the strategies sharing it make
    on it before they send a BUY. */
module BalancePoller {
  import opened Prelude

  datatype OpenOrder = OpenOrder(buy: bool, price: real, originalSize: real, sizeMatched: real)

  // What the exchange holds back for resting BUY orders.
  function Locked(orders: seq<OpenOrder>): real {
    if orders == [] then 0.0 else LockedBy(orders[0]) + Locked(orders[1..])
  }

  function LockedBy(o: OpenOrder): real {
    if o.buy && o.originalSize - o.sizeMatched > 0.0 then o.price * (o.originalSize - o.sizeMatched) else 0.0
  }

  datatype Wallet = Wallet(balance: real, locked: real, buffer: real, reserved: real) {
    // The snapshot's cash, reservations not counted.
    function Cash(): real {
      Max(0.0, balance - locked - buffer)
    }

    function Available(): real {
      Max(0.0, balance - locked - reserved - buffer)
    }
  }

  // Whole shares that the available cash buys, if they are not fewer than the minimum.
  function GrantedShares(w: Wallet, requested: real, price: real, minShares: real): real {
    if requested <= 0.0 || price <= 0.0 then 0.0
    else
      var actual := Min(requested, (w.Available() / price).Floor as real);
      if actual < minShares then 0.0 else actual
  }

  function Reserve(w: Wallet, requested: real, price: real, minShares: real): (Wallet, real) {
    var shares := GrantedShares(w, requested, price, minShares);
    (w.(reserved := w.reserved + shares * price), shares)
  }

  function Release(w: Wallet, notional: real): Wallet {
    w.(reserved := Max(0.0, w.reserved - notional))
  }

  /** A grant is never negative, never more than was asked for, and its cost fits in the
      cash that was available. */
  lemma GrantFits(w: Wallet, requested: real, price: real, minShares: real)
    ensures var shares := GrantedShares(w, requested, price, minShares);
            && 0.0 <= shares
            && shares * price <= w.Available()
            && (shares > 0.0 ==> shares <= requested && price > 0.0 && minShares <= shares)
            && 0.0 <= shares * price
  {
  }

  predicate Affords(cash: real, n: nat, price: real) {
    n as real * price <= cash
  }

  /** A release gives back no more than is reserved, and all it is for otherwise. */
  lemma ReleaseStopsAtZero(w: Wallet, notional: real)
    ensures var w' := Release(w, notional);
            && w' == w.(reserved := w'.reserved)
            && (notional <= w.reserved ==> w'.reserved + notional == w.reserved)
            && (notional > w.reserved ==> w'.reserved == 0.0)
  {
  }

  /** A grant is as large as it can be: the request, or so many whole shares that one more
      does not fit in the cash. Nothing is granted only when the request is below the
      minimum or no whole number of shares from the minimum on fits. */
  lemma GrantIsLargest(w: Wallet, requested: real, price: real, minShares: real)
    requires requested > 0.0 && price > 0.0
    ensures var shares, cash := GrantedShares(w, requested, price, minShares),
                                Max(0.0, w.balance - w.locked - w.reserved - w.buffer);
            && (shares > 0.0 ==> shares == requested || (shares.Floor as real == shares && cash < (shares + 1.0) * price))
            && (shares == 0.0 ==>
                  requested < minShares || forall n: nat :: 1 <= n && minShares <= n as real ==> !Affords(cash, n, price))
  {
    var cash := w.Available();
    var fit := (cash / price).Floor;
    assert cash < (fit as real + 1.0) * price by {
      TimesPrice(cash / price, fit as real + 1.0, price);
    }
    if GrantedShares(w, requested, price, minShares) == 0.0 && requested >= minShares {
      forall n: nat | 1 <= n && minShares <= n as real ensures !Affords(cash, n, price) {
        assert fit + 1 <= n;
        TimesPrice(cash / price, n as real, price);
      }
    }
  }

  lemma TimesPrice(a: real, b: real, price: real)
    requires a < b && price > 0.0
    ensures a * price < b * price
  {
  }

  // ---- What resting orders lock ----

  lemma {:induction false} LockedParts(a: seq<OpenOrder>, b: seq<OpenOrder>)
    ensures Locked(a + b) == Locked(a) + Locked(b)
  {
    if a == [] {
      assert a + b == b;
    } else {
      assert (a + b)[1..] == a[1..] + b;
      LockedParts(a[1..], b);
    }
  }

  lemma LockedAround(before: seq<OpenOrder>, o: OpenOrder, after: seq<OpenOrder>)
    ensures Locked(before + [o] + after) == Locked(before + after) + Locked([o])
  {
    LockedParts(before + [o], after);
    LockedParts(before, [o]);
    LockedParts(before, after);
  }

  /** A SELL, or an order matched in full or beyond, locks nothing. */
  lemma LocksNothing(before: seq<OpenOrder>, o: OpenOrder, after: seq<OpenOrder>)
    requires !o.buy || o.sizeMatched >= o.originalSize
    ensures Locked(before + [o] + after) == Locked(before + after)
  {
    LockedAround(before, o, after);
    assert [o][1..] == [];
  }

  /** A fresh BUY locks its whole cost, and q more shares matched unlock theirs. */
  lemma FillUnlocks(before: seq<OpenOrder>, o: OpenOrder, after: seq<OpenOrder>, q: real)
    requires o.buy && 0.0 <= q <= o.originalSize - o.sizeMatched
    ensures Locked(before + [o.(sizeMatched := o.sizeMatched + q)] + after) == Locked(before + [o] + after) - o.price * q
    ensures o.sizeMatched == 0.0 ==> Locked(before + [o] + after) == Locked(before + after) + o.price * o.originalSize
  {
    var o' := o.(sizeMatched := o.sizeMatched + q);
    hide Locked;
    LockedAround(before, o, after);
    LockedAround(before, o', after);
    LockedAlone(o);
    LockedAlone(o');
    LessRemains(o.price, o.originalSize - o.sizeMatched, q);
    assert o'.originalSize - o'.sizeMatched == o.originalSize - o.sizeMatched - q;
  }

  lemma LessRemains(price: real, remaining: real, q: real)
    ensures price * (remaining - q) == price * remaining - price * q
  {
  }

  lemma LockedAlone(o: OpenOrder)
    requires o.buy && o.sizeMatched <= o.originalSize
    ensures Locked([o]) == o.price * (o.originalSize - o.sizeMatched)
  {
    assert [o][1..] == [];
    var remaining := o.originalSize - o.sizeMatched;
    assert remaining == 0.0 ==> o.price * remaining == 0.0;
  }

  class Poller {
    const safetyBuffer: real
    var collateralBalance: real
    var openBuyLocked: real
    var reservedBuyNotional: real

    constructor (safetyBuffer: real)
      ensures View() == Wallet(0.0, 0.0, safetyBuffer, 0.0)
    {
      this.safetyBuffer := safetyBuffer;
      collateralBalance, openBuyLocked, reservedBuyNotional := 0.0, 0.0, 0.0;
    }

    function View(): Wallet
      reads this
    {
      Wallet(collateralBalance, openBuyLocked, safetyBuffer, reservedBuyNotional)
    }

    function AvailableCash(): real
      reads this
    {
      Max(0.0, collateralBalance - openBuyLocked - reservedBuyNotional - safetyBuffer)
    }

    method ReserveBuyShares(requested: real, price: real, minShares: real) returns (shares: real)
      modifies this`reservedBuyNotional
      ensures (View(), shares) == Reserve(old(View()), requested, price, minShares)
    {
      if requested <= 0.0 || price <= 0.0 {
        return 0.0;
      }
      assert AvailableCash() == View().Available();
      var maxShares := (AvailableCash() / price).Floor as real;
      var actual := Min(requested, maxShares);
      if actual < minShares {
        return 0.0;
      }
      assert actual == GrantedShares(View(), requested, price, minShares);
      reservedBuyNotional := reservedBuyNotional + actual * price;
      return actual;
    }

    method ReleaseBuy(notional: real)
      modifies this`reservedBuyNotional
      ensures View() == Release(old(View()), notional)
    {
      reservedBuyNotional := Max(0.0, reservedBuyNotional - notional);
    }

    method PollBalanceAndOrders(balance: Option<real>, orders: Option<seq<OpenOrder>>) returns (refreshed: bool)
      modifies this`collateralBalance, this`openBuyLocked
      ensures collateralBalance == if balance.Some? then balance.value else old(collateralBalance)
      ensures openBuyLocked == if orders.Some? then Locked(orders.value) else old(openBuyLocked)
      ensures refreshed == (balance.Some? && orders.Some?)
    {
      if balance.Some? {
        collateralBalance := balance.value;
      }
      if orders.Some? {
        var locked := 0.0;
        var i := 0;
        while i < |orders.value|
          invariant 0 <= i <= |orders.value|
          invariant locked + Locked(orders.value[i..]) == Locked(orders.value)
        {
          var order := orders.value[i];
          if order.buy {
            var remaining := order.originalSize - order.sizeMatched;
            if remaining > 0.0 {
              locked := locked + order.price * remaining;
            }
          }
          i := i + 1;
        }
        openBuyLocked := locked;
      }
      return balance.Some? && orders.Some?;
    }
  }
}
