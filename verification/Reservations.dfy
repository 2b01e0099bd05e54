/** Many trades on one wallet: each reserves before its BUY and releases when the order is
    refused, when placing it fails, or some time after it was accepted. */
module Reservations {
  import opened Prelude
  import opened BalancePoller

  const MIN_BUY_SHARES := 5.0

  // One entering trade. Ordering: the BUY is on its way. Settling: it was accepted and the
  // release is scheduled.
  datatype Phase =
    | Fresh
    | Ordering(notional: real)
    | Settling(notional: real)
    | NoCash
    | Over

  datatype Client = Client(phase: Phase, grants: nat, releases: nat)

  datatype Reply = AcceptedBuy | RefusedBuy | RaisedError

  datatype Event =
    | Enter(i: nat, shares: real, price: real)
    | Reply(i: nat, reply: Reply)
    | SettlementEnds(i: nat)               // slept through, or cancelled while asleep
    | NewSnapshot(balance: real, locked: real)

  datatype World = World(wallet: Wallet, clients: seq<Client>)

  function Held(c: Client): real {
    match c.phase
    case Ordering(n) => n
    case Settling(n) => n
    case _ => 0.0
  }

  function TotalHeld(cs: seq<Client>): real {
    if cs == [] then 0.0 else Held(cs[0]) + TotalHeld(cs[1..])
  }

  predicate Enabled(w: World, e: Event) {
    match e
    case Enter(i, _, _) => i < |w.clients| && w.clients[i].phase == Fresh
    case Reply(i, _) => i < |w.clients| && w.clients[i].phase.Ordering?
    case SettlementEnds(i) => i < |w.clients| && w.clients[i].phase.Settling?
    case NewSnapshot(_, _) => true
  }

  function ReleaseOf(w: World, i: nat): World
    requires i < |w.clients|
  {
    World(Release(w.wallet, Held(w.clients[i])),
          w.clients[i := Client(Over, w.clients[i].grants, w.clients[i].releases + 1)])
  }

  function Next(w: World, e: Event): World
    requires Enabled(w, e)
  {
    match e
    case Enter(i, shares, price) =>
      var (wallet, actual) := Reserve(w.wallet, shares, price, MIN_BUY_SHARES);
      var c := w.clients[i];
      if actual < MIN_BUY_SHARES then World(wallet, w.clients[i := c.(phase := NoCash)])
      else World(wallet, w.clients[i := Client(Ordering(price * actual), c.grants + 1, c.releases)])
    case Reply(i, AcceptedBuy) => w.(clients := w.clients[i := w.clients[i].(phase := Settling(Held(w.clients[i])))])
    case Reply(i, _) => ReleaseOf(w, i)
    case SettlementEnds(i) => ReleaseOf(w, i)
    case NewSnapshot(balance, locked) => w.(wallet := w.wallet.(balance := balance, locked := locked))
  }

  predicate Playable(w: World, es: seq<Event>)
    decreases |es|
  {
    es == [] || (Enabled(w, es[0]) && Playable(Next(w, es[0]), es[1..]))
  }

  function Play(w: World, es: seq<Event>): World
    requires Playable(w, es)
    decreases |es|
  {
    if es == [] then w else Play(Next(w, es[0]), es[1..])
  }

  // Every grant is either held or was released once; a trade enters once.
  predicate Balanced(c: Client) {
    match c.phase
    case Fresh => c.grants == 0 && c.releases == 0
    case NoCash => c.grants == 0 && c.releases == 0
    case Ordering(n) => c.grants == 1 && c.releases == 0 && n >= 0.0
    case Settling(n) => c.grants == 1 && c.releases == 0 && n >= 0.0
    case Over => c.grants == 1 && c.releases == 1
  }

  // The shared counter is what the trades hold, no more and no less.
  ghost predicate Exact(w: World) {
    && w.wallet.reserved == TotalHeld(w.clients)
    && forall i :: 0 <= i < |w.clients| ==> Balanced(w.clients[i])
  }

  lemma {:induction false} HeldChanges(cs: seq<Client>, i: nat, c: Client)
    requires i < |cs|
    ensures TotalHeld(cs[i := c]) == TotalHeld(cs) - Held(cs[i]) + Held(c)
  {
    if i == 0 {
      assert cs[0 := c][1..] == cs[1..];
    } else {
      assert cs[i := c][1..] == cs[1..][i - 1 := c];
      HeldChanges(cs[1..], i - 1, c);
    }
  }

  lemma {:induction false} HeldCovers(cs: seq<Client>, i: nat)
    requires i < |cs| && forall k :: 0 <= k < |cs| ==> Balanced(cs[k])
    ensures 0.0 <= Held(cs[i]) <= TotalHeld(cs)
  {
    if |cs| > 1 {
      HeldCovers(cs[1..], if i == 0 then 0 else i - 1);
    } else {
      assert cs[1..] == [];
    }
  }

  /** A release gives back exactly what was reserved: the clamp at zero changes nothing. */
  lemma ClampNeverBites(w: World, i: nat)
    requires Exact(w) && i < |w.clients|
    ensures Release(w.wallet, Held(w.clients[i])).reserved == w.wallet.reserved - Held(w.clients[i])
  {
    HeldCovers(w.clients, i);
  }

  lemma EnterIsExact(w: World, i: nat, shares: real, price: real)
    requires Exact(w) && Enabled(w, Enter(i, shares, price))
    ensures var w' := Next(w, Enter(i, shares, price));
            && Exact(w') && w'.wallet.Cash() == w.wallet.Cash()
            && (w.wallet.reserved <= w.wallet.Cash() ==> w'.wallet.reserved <= w.wallet.Cash())
  {
    var w' := Next(w, Enter(i, shares, price));
    var actual := GrantedShares(w.wallet, shares, price, MIN_BUY_SHARES);
    GrantFits(w.wallet, shares, price, MIN_BUY_SHARES);
    assert w'.clients == w.clients[i := w'.clients[i]];
    assert Held(w'.clients[i]) == actual * price;
    HeldChanges(w.clients, i, w'.clients[i]);
  }

  // As many shares as were asked for, or whole shares of which one more does not fit.
  predicate Largest(q: real, shares: real, price: real, cash: real) {
    q <= shares && q * price <= cash && (q == shares || (q.Floor as real == q && cash < (q + 1.0) * price))
  }

  /** A trade goes on to its BUY exactly when five whole shares were asked for and fit in the
      available cash, and then for as many as it can. Otherwise it ends without cash, having
      reserved nothing. */
  lemma EntersExactly(w: World, i: nat, shares: real, price: real)
    requires Enabled(w, Enter(i, shares, price))
    ensures var w', cash := Next(w, Enter(i, shares, price)),
                            Max(0.0, w.wallet.balance - w.wallet.locked - w.wallet.reserved - w.wallet.buffer);
            if price > 0.0 && shares >= 5.0 && 5.0 * price <= cash
            then w'.clients[i].phase.Ordering?
                 && exists q: real :: w'.clients[i].phase.notional == price * q && q >= 5.0 && Largest(q, shares, price, cash)
            else w'.clients[i].phase == NoCash && w'.wallet == w.wallet
  {
    var q := GrantedShares(w.wallet, shares, price, MIN_BUY_SHARES);
    FiveShares(w.wallet, shares, price);
    assert 0.0 * price == 0.0;
    hide GrantedShares, Largest;
    var w' := Next(w, Enter(i, shares, price));
    if q >= 5.0 {
      assert w'.clients[i].phase.notional == price * q;
    }
  }

  lemma FiveShares(w: Wallet, shares: real, price: real)
    ensures var q, cash := GrantedShares(w, shares, price, 5.0), Max(0.0, w.balance - w.locked - w.reserved - w.buffer);
            if price > 0.0 && shares >= 5.0 && 5.0 * price <= cash then q >= 5.0 && Largest(q, shares, price, cash)
            else q == 0.0
  {
    var q, cash := GrantedShares(w, shares, price, 5.0), w.Available();
    GrantFits(w, shares, price, 5.0);
    if shares > 0.0 && price > 0.0 {
      GrantIsLargest(w, shares, price, 5.0);
      assert q == 0.0 && shares >= 5.0 ==> !Affords(cash, 5, price);
      hide GrantedShares;
      if q > 0.0 {
        AtLeastFive(q, price, cash);
      }
    }
  }

  lemma AtLeastFive(q: real, price: real, cash: real)
    requires q >= 5.0 && price > 0.0 && q * price <= cash
    ensures 5.0 * price <= cash
  {
    assert 0.0 <= (q - 5.0) * price == q * price - 5.0 * price;
  }

  lemma ReleaseIsExact(w: World, i: nat)
    requires Exact(w) && i < |w.clients| && (w.clients[i].phase.Ordering? || w.clients[i].phase.Settling?)
    ensures Exact(ReleaseOf(w, i))
    ensures ReleaseOf(w, i).wallet.reserved <= w.wallet.reserved
  {
    ClampNeverBites(w, i);
    HeldCovers(w.clients, i);
    HeldChanges(w.clients, i, ReleaseOf(w, i).clients[i]);
  }

  lemma StepIsExact(w: World, e: Event)
    requires Exact(w) && Enabled(w, e)
    ensures Exact(Next(w, e))
    ensures !e.NewSnapshot? && w.wallet.reserved <= w.wallet.Cash() ==>
            Next(w, e).wallet.reserved <= Next(w, e).wallet.Cash() == w.wallet.Cash()
  {
    match e {
      case Enter(i, shares, price) => EnterIsExact(w, i, shares, price);
      case Reply(i, AcceptedBuy) => HeldChanges(w.clients, i, Next(w, e).clients[i]);
      case Reply(i, RefusedBuy) => ReleaseIsExact(w, i);
      case Reply(i, RaisedError) => ReleaseIsExact(w, i);
      case SettlementEnds(i) => ReleaseIsExact(w, i);
      case NewSnapshot(_, _) =>
    }
  }

  /** A refused BUY, one that raised an error, and the end of a settlement give the reservation
      back at once, and the trade is over; an accepted BUY keeps it until then. */
  lemma EndsRelease(w: World, i: nat, reply: Reply)
    requires Exact(w) && i < |w.clients|
    requires w.clients[i].phase.Ordering?
    ensures var held, w' := Held(w.clients[i]), Next(w, Reply(i, reply));
            if reply == AcceptedBuy
            then w'.clients[i].phase == Settling(held) && w'.wallet == w.wallet
                 && Next(w', SettlementEnds(i)).clients[i].phase == Over
                 && Next(w', SettlementEnds(i)).wallet.reserved == w.wallet.reserved - held
            else w'.clients[i].phase == Over && w'.wallet.reserved == w.wallet.reserved - held
  {
    ClampNeverBites(w, i);
  }

  lemma {:induction false} NothingHeldBy(cs: seq<Client>)
    requires forall i :: 0 <= i < |cs| ==> !cs[i].phase.Ordering? && !cs[i].phase.Settling?
    ensures TotalHeld(cs) == 0.0
  {
    if cs != [] {
      NothingHeldBy(cs[1..]);
    }
  }

  /** When no trade is at its BUY or settling, nothing is reserved. */
  lemma AllIsReleased(balance: real, locked: real, buffer: real, n: nat, es: seq<Event>)
    requires Playable(Opening(balance, locked, buffer, n), es)
    ensures var w := Play(Opening(balance, locked, buffer, n), es);
            (forall i :: 0 <= i < |w.clients| ==> !w.clients[i].phase.Ordering? && !w.clients[i].phase.Settling?) ==>
              w.wallet.reserved == 0.0
  {
    NothingHeld(n);
    RunIsExact(Opening(balance, locked, buffer, n), es);
    var w := Play(Opening(balance, locked, buffer, n), es);
    if forall i :: 0 <= i < |w.clients| ==> !w.clients[i].phase.Ordering? && !w.clients[i].phase.Settling? {
      NothingHeldBy(w.clients);
    }
  }

  function Opening(balance: real, locked: real, buffer: real, n: nat): World {
    World(Wallet(balance, locked, buffer, 0.0), seq(n, _ => Client(Fresh, 0, 0)))
  }

  lemma {:induction false} NothingHeld(n: nat)
    ensures TotalHeld(seq(n, _ => Client(Fresh, 0, 0))) == 0.0
  {
    if n > 0 {
      assert seq(n, _ => Client(Fresh, 0, 0))[1..] == seq(n - 1, _ => Client(Fresh, 0, 0));
      NothingHeld(n - 1);
    }
  }

  lemma {:induction false} RunIsExact(w: World, es: seq<Event>)
    requires Exact(w) && Playable(w, es)
    ensures Exact(Play(w, es))
    ensures w.wallet.reserved <= w.wallet.Cash() && (forall k :: 0 <= k < |es| ==> !es[k].NewSnapshot?) ==>
            Play(w, es).wallet.reserved <= w.wallet.Cash()
    decreases |es|
  {
    if es != [] {
      StepIsExact(w, es[0]);
      RunIsExact(Next(w, es[0]), es[1..]);
    }
  }

  /** Under every interleaving of any number of trades, the wallet's counter is the sum of
      the grants not yet released, and each grant is released exactly once on the accepted,
      refused and failing path alike. While the snapshot stands, what the trades hold
      together never exceeds its cash. */
  lemma NoDoubleSpend(balance: real, locked: real, buffer: real, n: nat, es: seq<Event>)
    requires Playable(Opening(balance, locked, buffer, n), es)
    ensures var w := Play(Opening(balance, locked, buffer, n), es);
            && w.wallet.reserved == TotalHeld(w.clients)
            && (forall i :: 0 <= i < |w.clients| ==>
                  w.clients[i].grants == w.clients[i].releases +
                    if w.clients[i].phase.Ordering? || w.clients[i].phase.Settling? then 1 else 0)
            && ((forall k :: 0 <= k < |es| ==> !es[k].NewSnapshot?) ==>
                  TotalHeld(w.clients) <= Max(0.0, balance - locked - buffer))
  {
    NothingHeld(n);
    RunIsExact(Opening(balance, locked, buffer, n), es);
  }
}
