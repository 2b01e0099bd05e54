/** Selling a position attempt after attempt: the log that every run of the selling loop
    keeps to, whatever callbacks run at its awaits, and what such a log guarantees. */
module SellAttempts {
  import opened Prelude
  import opened BuyEntry
  import opened SellExit

  // What the exchange and the error classifier make of one attempt to sell. The callbacks of
  // an accepted order are all that run until the loop wakes from its wait for it.
  datatype Turn =
    | BalanceLag(balance: Option<nat>, matched: Option<nat>)
    | InvalidTick(newTick: Option<real>)
    // stop: the failure tracker gives up; missingFill: a matched reply without amounts
    | Failed(stop: bool, missingFill: bool)
    | Accepted(orderId: string, complete: bool, filled: real, price: Option<real>, calls: seq<Call>)

  // The callbacks that run while the order is on its way, the answer to it, and the callbacks
  // that run while the loop sleeps after a failure.
  datatype Answer = Answer(before: seq<Call>, turn: Turn, after: seq<Call>)

  type Exchange = (nat, real) -> Answer

  // ---- One attempt ----

  // The position it was made against, what was offered and at what limit, the position when
  // the answer came, and the answer.
  datatype Attempt = Attempt(position: real, size: real, limit: real, held: real, answer: Answer)

  function ExecutionPrice(filledPrice: Option<real>, limit: real): real {
    if filledPrice.Some? && filledPrice.value > 0.0 then filledPrice.value else limit
  }

  // The size to retry at once with when the balance lags behind the position.
  function BalanceRetry(position: real, size: real, minOrderSize: Option<real>,
                        balance: Option<nat>, matched: Option<nat>): Option<real>
  {
    var sellable := ParseSellable(balance, matched);
    if sellable.Some? && minOrderSize.Some? && sellable.value >= minOrderSize.value
       && Min(position, sellable.value) < size
    then Some(Cents(Min(position, sellable.value)))
    else None
  }

  function RetryAfter(a: Attempt, minOrderSize: Option<real>): Option<real> {
    match a.answer.turn
    case BalanceLag(balance, matched) => BalanceRetry(a.held, a.size, minOrderSize, balance, matched)
    case _ => None
  }

  // The callbacks of the sleep; a retry at once does not sleep, and neither does an accepted order.
  function Slept(a: Attempt, minOrderSize: Option<real>): seq<Call> {
    if a.answer.turn.Accepted? || RetryAfter(a, minOrderSize).Some? then [] else a.answer.after
  }

  function OrderPlaced(b: Books, a: Attempt): Books
    requires a.answer.turn.Accepted?
  {
    var turn := a.answer.turn;
    var b := b.(sizes := b.sizes[turn.orderId := a.size]);
    if turn.filled > 0.0 then RecordSell(b, turn.filled, ExecutionPrice(turn.price, a.limit)) else b
  }

  function WaitBegun(b: Books, orderId: string, filled: real): Books {
    b.(done := false, cancelled := false, matched := b.matched[orderId := filled])
  }

  function OrderForgotten(b: Books, orderId: string): Books {
    b.(matched := b.matched - {orderId}, sizes := b.sizes - {orderId})
  }

  // The wait for a resting order, over when one of the callbacks has said so.
  function Waited(b: Books, orderId: string, filled: real, calls: seq<Call>): Books {
    var b := AfterCalls(WaitBegun(b, orderId, filled), calls);
    if b.done then OrderForgotten(b, orderId) else b
  }

  function Followed(b: Books, a: Attempt): Books
    requires a.answer.turn.Accepted?
  {
    var turn, b := a.answer.turn, OrderPlaced(b, a);
    if turn.complete then b.(sizes := b.sizes - {turn.orderId})
    else Waited(b.(sellPrice := a.limit), turn.orderId, turn.filled, turn.calls)
  }

  // What an attempt makes of the books, from the moment the order is sent.
  function Booked(b: Books, a: Attempt, minOrderSize: Option<real>): Books {
    var b := AfterCalls(b, a.answer.before);
    if a.answer.turn.Accepted? then Followed(b, a) else AfterCalls(b, Slept(a, minOrderSize))
  }

  // ---- The log ----

  function Front(log: seq<Attempt>): seq<Attempt>
    requires log != []
  {
    log[..|log| - 1]
  }

  function Last(log: seq<Attempt>): Attempt
    requires log != []
  {
    log[|log| - 1]
  }

  // The exchange, the books at the start, the first tick and the minimum.
  datatype Setup = Setup(exchange: Exchange, start: Books, tick: real, minOrderSize: Option<real>)

  function BooksAfter(u: Setup, log: seq<Attempt>): Books {
    if log == [] then u.start else Booked(BooksAfter(u, Front(log)), Last(log), u.minOrderSize)
  }

  // The tick after the refreshes in the log.
  function TickNow(tick: real, log: seq<Attempt>): real {
    if log == [] then tick
    else
      var turn := Last(log).answer.turn;
      if turn.InvalidTick? && turn.newTick.Some? then turn.newTick.value else TickNow(tick, Front(log))
  }

  function InvalidTicks(log: seq<Attempt>): nat {
    if log == [] then 0 else InvalidTicks(Front(log)) + if Last(log).answer.turn.InvalidTick? then 1 else 0
  }

  const INVALID_TICK_RETRIES := 3

  // A failure that ends the attempts, after so many ticks were refused.
  predicate Hopeless(turn: Turn, invalidTicks: nat) {
    match turn
    case Failed(stop, _) => stop
    case InvalidTick(newTick) => newTick.None? || invalidTicks >= INVALID_TICK_RETRIES
    case _ => false
  }

  function FailureReason(turn: Turn): CloseReason {
    if turn.Failed? && turn.missingFill then SellFillParseError else SellPlacementFailed
  }

  predicate GivesUp(log: seq<Attempt>) {
    log != [] && Hopeless(Last(log).answer.turn, InvalidTicks(Front(log)))
  }

  // Accepted, and not over.
  predicate Resting(turn: Turn, b: Books) {
    turn.Accepted? && !turn.complete && !b.done
  }

  predicate Rests(u: Setup, log: seq<Attempt>) {
    log != [] && Resting(Last(log).answer.turn, BooksAfter(u, log))
  }

  predicate Dust(position: real, minOrderSize: Option<real>) {
    minOrderSize.Some? && 0.0 < position < minOrderSize.value
  }

  // How the trade stands after the log; open when there is more to do or to wait for.
  function Verdict(u: Setup, log: seq<Attempt>): Option<CloseReason> {
    if GivesUp(log) then Some(FailureReason(Last(log).answer.turn))
    else if Rests(u, log) then None
    else if BooksAfter(u, log).position <= 0.0 then Some(NormalExit)
    else if Dust(BooksAfter(u, log).position, u.minOrderSize) then Some(DustPosition)
    else None
  }

  // The whole position, or less of it after a lagging balance.
  function Offer(u: Setup, log: seq<Attempt>): real {
    var retry := if log == [] then None else RetryAfter(Last(log), u.minOrderSize);
    if retry.Some? && retry.value != 0.0 then retry.value else BooksAfter(u, log).position
  }

  // The attempt that follows.
  function Next(u: Setup, log: seq<Attempt>): Attempt {
    var b, size := BooksAfter(u, log), Offer(u, log);
    var answer := u.exchange(|log| + 1, size);
    Attempt(b.position, size, 1.0 - TickNow(u.tick, log), AfterCalls(b, answer.before).position, answer)
  }

  predicate Open(u: Setup, log: seq<Attempt>) {
    Verdict(u, log).None? && !Rests(u, log)
  }

  // Every attempt follows from those before it, while the trade is open.
  predicate Lawful(u: Setup, log: seq<Attempt>) {
    log != [] ==> Lawful(u, Front(log)) && Open(u, Front(log)) && Last(log) == Next(u, Front(log))
  }

  // ---- The loop's own variables ----

  // What the loop carries from one attempt to the next, as the log has it.
  ghost predicate Tracks(u: Setup, log: seq<Attempt>, b: Books, price: real, invalidTicks: nat, retry: Option<real>) {
    && Lawful(u, log) && !GivesUp(log) && !Rests(u, log)
    && b == BooksAfter(u, log)
    && price == 1.0 - TickNow(u.tick, log) && invalidTicks == InvalidTicks(log)
    && retry == if log == [] then None else RetryAfter(Last(log), u.minOrderSize)
  }

  lemma VerdictNow(u: Setup, log: seq<Attempt>, b: Books, price: real, invalidTicks: nat, retry: Option<real>)
    requires Tracks(u, log, b, price, invalidTicks, retry)
    ensures Lawful(u, log) && b == BooksAfter(u, log)
    ensures Verdict(u, log) ==
            if b.position <= 0.0 then Some(NormalExit)
            else if Dust(b.position, u.minOrderSize) then Some(DustPosition)
            else None
  {
    hide BooksAfter, Lawful;
  }

  // The attempt that the loop makes is the one that follows, and what it makes of the
  // answer tracks the longer log or ends as the log says.
  lemma AttemptTracks(u: Setup, log: seq<Attempt>, b: Books, price: real, invalidTicks: nat, retry: Option<real>)
    requires Tracks(u, log, b, price, invalidTicks, retry) && b.position > 0.0 && !Dust(b.position, u.minOrderSize)
    ensures var size := if retry.Some? && retry.value != 0.0 then retry.value else b.position;
            var answer := u.exchange(|log| + 1, size);
            var a := Attempt(b.position, size, price, AfterCalls(b, answer.before).position, answer);
            var log', b' := log + [a], Booked(b, a, u.minOrderSize);
            && Last(log') == a && Lawful(u, log') && BooksAfter(u, log') == b'
            && (Hopeless(answer.turn, invalidTicks) ==> Verdict(u, log') == Some(FailureReason(answer.turn)))
            && (Resting(answer.turn, b') ==> Verdict(u, log') == None && Rests(u, log'))
            && (!Hopeless(answer.turn, invalidTicks) && !Resting(answer.turn, b') ==>
                  Tracks(u, log', b',
                         if answer.turn.InvalidTick? then 1.0 - answer.turn.newTick.value else price,
                         invalidTicks + if answer.turn.InvalidTick? then 1 else 0,
                         RetryAfter(a, u.minOrderSize)))
  {
    hide Booked, RetryAfter, AfterCalls;
    var a := Next(u, log);
    assert Front(log + [a]) == log && Last(log + [a]) == a;
  }

  /** Every attempt is limited at one minus the tick, as last refreshed, and at most three
      refreshes for a refused tick went before it. */
  lemma {:induction false} LimitFollowsTick(u: Setup, log: seq<Attempt>, k: nat)
    requires Lawful(u, log) && k < |log|
    ensures log[k].limit == 1.0 - TickNow(u.tick, log[..k])
    ensures InvalidTicks(log[..k]) <= INVALID_TICK_RETRIES
  {
    if k < |log| - 1 {
      assert Front(log)[..k] == log[..k];
      LimitFollowsTick(u, Front(log), k);
    } else {
      assert log[..k] == Front(log);
      FewRefreshes(u, Front(log));
    }
  }

  lemma {:induction false} FewRefreshes(u: Setup, log: seq<Attempt>)
    requires Lawful(u, log) && Open(u, log)
    ensures InvalidTicks(log) <= INVALID_TICK_RETRIES
  {
    if log != [] {
      FewRefreshes(u, Front(log));
    }
  }

  // ---- Retries at once ----

  lemma RetryIsLess(a: Attempt, minOrderSize: Option<real>)
    ensures var retry := RetryAfter(a, minOrderSize);
            retry.Some? && a.held >= 0.0 ==>
              && 0.0 <= retry.value < a.size && WholeCents(retry.value) && retry.value > Min(a.held, minOrderSize.value) - 0.01
              && (a.size <= a.held ==> minOrderSize.value <= retry.value)
              && (a.held >= 0.01 && minOrderSize.value > 0.0 ==> retry.value > 0.0)
    ensures RetryAfter(a, minOrderSize).Some? && a.size > 0.0 ==>
      RetryAfter(a, minOrderSize).value < a.size && WholeCents(RetryAfter(a, minOrderSize).value)
  {
    if RetryAfter(a, minOrderSize).Some? {
      var turn := a.answer.turn;
      var sellable := ParseSellable(turn.balance, turn.matched).value;
      CentsRoundDown((turn.balance.value as real - (if turn.matched.Some? then turn.matched.value else 0) as real) / 1_000_000.0);
      CentsRoundDown(sellable);
      CentsRoundDown(Min(a.held, sellable));
      if minOrderSize.value > 0.0 {
        CentAtLeast(sellable);
      }
    }
    hide Cents, WholeCents;
  }

  // How many retries at once in a row the log ends with.
  function Burst(log: seq<Attempt>, minOrderSize: Option<real>): nat {
    if log == [] || RetryAfter(Last(log), minOrderSize).None? then 0
    else Burst(Front(log), minOrderSize) + 1
  }

  // The position that a burst started from.
  function BurstFrom(log: seq<Attempt>, minOrderSize: Option<real>): real
    requires Burst(log, minOrderSize) > 0
  {
    if Burst(Front(log), minOrderSize) == 0 then Last(log).position else BurstFrom(Front(log), minOrderSize)
  }

  // No callback runs while an order of the burst is on its way.
  predicate Quiet(log: seq<Attempt>, minOrderSize: Option<real>) {
    Burst(log, minOrderSize) > 0 ==> Last(log).answer.before == [] && Quiet(Front(log), minOrderSize)
  }

  // After a retry at once the loop goes on from the position that the answer found.
  lemma AfterRetry(u: Setup, log: seq<Attempt>)
    requires log != [] && Lawful(u, log) && RetryAfter(Last(log), u.minOrderSize).Some?
    ensures BooksAfter(u, log).position == Last(log).held
    ensures Last(log).position > 0.0 && (u.minOrderSize.Some? ==> u.minOrderSize.value <= Last(log).position)
    ensures Last(log).answer.before == [] ==> Last(log).held == Last(log).position
    ensures Last(log).size == Offer(u, Front(log)) && Last(log).position == BooksAfter(u, Front(log)).position
  {
    hide BooksAfter;
    var a, b := Last(log), BooksAfter(u, Front(log));
    assert Booked(b, a, u.minOrderSize) == AfterCalls(AfterCalls(b, a.answer.before), []);
    BooksStep(u, log);
  }

  lemma BooksStep(u: Setup, log: seq<Attempt>)
    requires log != []
    ensures BooksAfter(u, log) == Booked(BooksAfter(u, Front(log)), Last(log), u.minOrderSize)
  {
  }

  /** With a positive minimum, against every exchange, every retry at once is for at least one
      cent of a share less than the one before and never below the minimum, so there are at
      most (position - minimum) / 0.01 + 1 of them in a row. */
  lemma {:induction false} BurstIsBounded(u: Setup, log: seq<Attempt>)
    requires Lawful(u, log) && u.minOrderSize.Some? && u.minOrderSize.value > 0.0
    requires Burst(log, u.minOrderSize) > 0 && Quiet(log, u.minOrderSize)
    ensures var n, a, minimum := Burst(log, u.minOrderSize), Last(log), u.minOrderSize.value;
            var retry := RetryAfter(a, u.minOrderSize).value;
            && a.position == a.held == BurstFrom(log, u.minOrderSize)
            && minimum <= retry < a.size <= a.position
            && retry < a.position - 0.01 * (n as real - 1.0)
            && n as real <= (a.position - minimum) / 0.01 + 1.0
  {
    var a := Last(log);
    AfterRetry(u, log);
    RetryIsLess(a, u.minOrderSize);
    if Burst(Front(log), u.minOrderSize) > 0 {
      BurstIsBounded(u, Front(log));
      AfterRetry(u, Front(log));
      RetryIsLess(Last(Front(log)), u.minOrderSize);
      NextCent(RetryAfter(a, u.minOrderSize).value, a.size);
    }
  }

  /** With callbacks running inside the burst the position may fall below the minimum under
      it; then the bound is two retries more. */
  lemma {:induction false} BurstWithCallbacks(u: Setup, log: seq<Attempt>)
    requires Lawful(u, log) && u.minOrderSize.Some? && u.minOrderSize.value >= 0.01
    requires Burst(log, u.minOrderSize) > 0
    ensures var n, minimum, start := Burst(log, u.minOrderSize), u.minOrderSize.value, BurstFrom(log, u.minOrderSize);
            var retry := RetryAfter(Last(log), u.minOrderSize).value;
            && retry < Last(log).size && WholeCents(retry)
            && retry < start - 0.01 * (n as real - 1.0)
            && n as real < (start - minimum) / 0.01 + 3.0
  {
    var a := Last(log);
    AfterRetry(u, log);
    RetryIsLess(a, u.minOrderSize);
    if Burst(Front(log), u.minOrderSize) > 0 {
      var b := Last(Front(log));
      AfterRetry(u, Front(log));
      BurstWithCallbacks(u, Front(log));
      RetryIsLess(b, u.minOrderSize);
      NextCent(RetryAfter(a, u.minOrderSize).value, a.size);
    }
  }

  // How many orders of the burst callbacks ran under.
  function Noisy(log: seq<Attempt>, minOrderSize: Option<real>): nat {
    if Burst(log, minOrderSize) == 0 then 0
    else Noisy(Front(log), minOrderSize) + if Last(log).answer.before == [] then 0 else 1
  }

  /** Whatever callbacks run inside the burst, the retries get smaller by a cent each until one
      is less than a cent; after that only callbacks keep the burst going. */
  lemma {:induction false} NoisyBurst(u: Setup, log: seq<Attempt>)
    requires Lawful(u, log) && u.minOrderSize.Some? && u.minOrderSize.value > 0.0
    requires Burst(log, u.minOrderSize) > 0
    ensures var n, start := Burst(log, u.minOrderSize), BurstFrom(log, u.minOrderSize);
            var retry := RetryAfter(Last(log), u.minOrderSize).value;
            && start >= u.minOrderSize.value && retry < Last(log).size && WholeCents(retry)
            && (retry > 0.0 ==> retry < start - 0.01 * (n as real - 1.0))
            && n as real < start / 0.01 + 1.0 + Noisy(log, u.minOrderSize) as real
  {
    var a := Last(log);
    AfterRetry(u, log);
    RetryIsLess(a, u.minOrderSize);
    var retry := RetryAfter(a, u.minOrderSize).value;
    if Burst(Front(log), u.minOrderSize) > 0 {
      var b := Last(Front(log));
      NoisyBurst(u, Front(log));
      AfterRetry(u, Front(log));
      RetryIsLess(b, u.minOrderSize);
      var before := RetryAfter(b, u.minOrderSize).value;
      if before > 0.0 {
        CentAtLeast(before);
        NextCent(retry, before);
      } else {
        assert a.size == a.position == b.held < 0.01;
        if retry > 0.0 {
          CentAtLeast(retry);
        }
      }
    }
  }

  // A sliver of an older order runs in under each of two attempts.
  function Slivers(n: nat, size: real): Answer {
    Answer([Call("older", FillUpdate(if n == 1 then 0.003 else 0.01, 1.0, 1.0))], BalanceLag(Some(10_010_000), None), [])
  }

  lemma SliverRunsIn(b: Books, n: nat, size: real)
    ensures AfterCalls(b, Slivers(n, size).before).position == b.position - if n == 1 then 0.003 else 0.01
  {
    var calls := Slivers(n, size).before;
    LateCall(b, "older", calls[0]);
    assert calls[1..] == [];
  }

  /** Callbacks inside a burst can make it longer than a quiet one: from 10.01 shares and a
      minimum of 10.005, two retries in a row where a quiet burst has at most 1.5. */
  lemma CallbacksLengthenBursts(b: Books)
    requires b.position == 10.01
    ensures var u := Setup(Slivers, b, 0.01, Some(10.005));
            exists log :: Lawful(u, log) && Burst(log, u.minOrderSize) == 2
  {
    var u := Setup(Slivers, b, 0.01, Some(10.005));
    var first, second := Next(u, []), Next(u, [Next(u, [])]);
    assert Front([first]) == [] && Front([first, second]) == [first];
    assert ParseSellable(Some(10_010_000), None) == Some(10.01);
    SliverRunsIn(b, 1, first.size);
    assert first.held == 10.007;
    assert Cents(10.007) == 10.0;
    assert BooksAfter(u, [first]).position == 10.007;
    SliverRunsIn(BooksAfter(u, [first]), 2, 10.0);
    assert second.size == 10.0 && second.held == 9.997;
    assert Cents(9.997) == 9.99;
    assert RetryAfter(second, u.minOrderSize) == Some(9.99);
    assert Burst([first], u.minOrderSize) == 1;
    assert Lawful(u, []) && Open(u, []) && Lawful(u, [first]);
    assert Open(u, [first]);
    assert Lawful(u, [first, second]) && Burst([first, second], u.minOrderSize) == 2;
  }

  // ---- Honest exchanges ----

  // What the exchange has reported of an accepted order by the end of the wait for it.
  function Matched(turn: Turn): real {
    if !turn.Accepted? then 0.0
    else if turn.complete then turn.filled
    else OwnMatch(turn.orderId, turn.filled, false, turn.calls)
  }

  // What was paid for that: the immediate part at the execution price, the callbacks at
  // their own, and what only the cancel reports at the limit.
  function Proceeds(turn: Turn, limit: real): real {
    if !turn.Accepted? then 0.0
    else turn.filled * ExecutionPrice(turn.price, limit) +
         if turn.complete then 0.0 else Revenue(turn.filled, limit, UpdatesOf(turn.calls))
  }

  // No fill exceeds its order, nothing follows the cancel of an order, a cancel comes after
  // the fills it counts, and no callback comes late.
  predicate Honest(answer: Answer, size: real) {
    && answer.before == [] && answer.after == []
    && (answer.turn.Accepted? ==>
          && 0.0 <= answer.turn.filled <= size
          && AllOf(answer.turn.orderId, answer.turn.calls)
          && Consecutive(answer.turn.filled, size, UpdatesOf(answer.turn.calls)))
  }

  ghost predicate HonestExchange(exchange: Exchange) {
    forall n: nat, size: real :: Honest(exchange(n, size), size)
  }

  // What the exchange matched and paid over all attempts.
  function ExchangeSold(log: seq<Attempt>): real {
    if log == [] then 0.0 else ExchangeSold(Front(log)) + Matched(Last(log).answer.turn)
  }

  function ExchangePaid(log: seq<Attempt>): real {
    if log == [] then 0.0 else ExchangePaid(Front(log)) + Proceeds(Last(log).answer.turn, Last(log).limit)
  }

  lemma {:induction false} OwnIsFinal(orderId: string, known: real, size: real, calls: seq<Call>)
    requires AllOf(orderId, calls) && Consecutive(known, size, UpdatesOf(calls))
    ensures OwnMatch(orderId, known, false, calls) == FinalMatch(known, UpdatesOf(calls))
    decreases |calls|
  {
    if calls != [] {
      assert UpdatesOf(calls)[1..] == UpdatesOf(calls[1..]);
      var u := calls[0].update;
      if u.FillUpdate? {
        OwnIsFinal(orderId, u.total, size, calls[1..]);
      } else {
        assert calls[1..] == [];
      }
    }
  }

  // The books once an accepted order has been accounted for at once.
  lemma PlacingBooks(b: Books, a: Attempt)
    requires a.answer.turn.Accepted? && a.answer.turn.filled >= 0.0
    ensures var turn, e := a.answer.turn, OrderPlaced(b, a);
            && e.sold == b.sold + turn.filled && e.position == b.position - turn.filled
            && e.revenue == b.revenue + turn.filled * ExecutionPrice(turn.price, a.limit)
            && turn.orderId in e.sizes && e.sizes[turn.orderId] == a.size
  {
    hide ExecutionPrice;
  }

  lemma WaitingBegins(b: Books, orderId: string, filled: real)
    ensures var e := WaitBegun(b, orderId, filled);
            && e.sold == b.sold && e.position == b.position && e.revenue == b.revenue && e.sizes == b.sizes
            && e.sellPrice == b.sellPrice && !e.done && Known(e, orderId) == filled
  {
  }

  lemma WaitingEnds(b: Books, orderId: string, filled: real, calls: seq<Call>)
    ensures var e, w := AfterCalls(WaitBegun(b, orderId, filled), calls), Waited(b, orderId, filled, calls);
            w.sold == e.sold && w.position == e.position && w.revenue == e.revenue && w.done == e.done
  {
    hide AfterCalls;
  }

  lemma OwnWait(b: Books, orderId: string, filled: real, size: real, calls: seq<Call>)
    requires orderId in b.sizes && b.sizes[orderId] == size && filled <= size && size - filled <= b.position
    requires AllOf(orderId, calls) && Consecutive(filled, size, UpdatesOf(calls))
    ensures var e, m := Waited(b, orderId, filled, calls), OwnMatch(orderId, filled, false, calls);
            && e.sold == b.sold + (m - filled) && e.position == b.position - (m - filled) && filled <= m <= size
            && e.revenue == b.revenue + Revenue(filled, b.sellPrice, UpdatesOf(calls))
            && e.done == Ended(filled, size, UpdatesOf(calls))
  {
    var us, began := UpdatesOf(calls), WaitBegun(b, orderId, filled);
    OwnIsFinal(orderId, filled, size, calls);
    hide OnUpdates, Known, Consecutive, FinalMatch, Revenue, Ended, OwnMatch, UpdatesOf, AfterCalls, WaitBegun, Waited;
    WaitingBegins(b, orderId, filled);
    WaitingEnds(b, orderId, filled, calls);
    OwnCalls(began, orderId, calls);
    FinalMatchFits(filled, size, us);
    WaitingIsExact(began, orderId, filled, size, us);
  }

  lemma HonestFollowed(b: Books, a: Attempt)
    requires Honest(a.answer, a.size) && 0.0 <= a.size <= b.position && a.answer.turn.Accepted?
    ensures var e, turn, m := Followed(b, a), a.answer.turn, Matched(a.answer.turn);
            && e.sold == b.sold + m && e.position == b.position - m && 0.0 <= m <= a.size
            && e.revenue == b.revenue + Proceeds(turn, a.limit)
            && (!turn.complete ==> e.done == Ended(turn.filled, a.size, UpdatesOf(turn.calls)))
  {
    var turn := a.answer.turn;
    hide AllOf, AfterCalls, Consecutive, Revenue, Ended, OwnMatch, UpdatesOf, ExecutionPrice, OrderPlaced, Waited;
    PlacingBooks(b, a);
    if !turn.complete {
      OwnWait(OrderPlaced(b, a).(sellPrice := a.limit), turn.orderId, turn.filled, a.size, turn.calls);
    }
  }

  /** Of an honest answer the trade books exactly what the exchange matched and paid. */
  lemma BookedIsMatched(b: Books, a: Attempt, minOrderSize: Option<real>)
    requires Honest(a.answer, a.size) && 0.0 <= a.size <= b.position
    ensures var e, turn, m := Booked(b, a, minOrderSize), a.answer.turn, Matched(a.answer.turn);
            && e.sold == b.sold + m && e.position == b.position - m && 0.0 <= m <= a.size
            && e.revenue == b.revenue + Proceeds(turn, a.limit)
            && (turn.Accepted? && !turn.complete ==> e.done == Ended(turn.filled, a.size, UpdatesOf(turn.calls)))
  {
    assert AfterCalls(b, []) == b && Slept(a, minOrderSize) == [];
    if a.answer.turn.Accepted? {
      HonestFollowed(b, a);
    }
    hide AfterCalls, RetryAfter, Consecutive, Revenue, Ended, OwnMatch, UpdatesOf, ExecutionPrice, Followed, Slept, AllOf;
  }

  /** Against an honest exchange no attempt offers more than the position, nothing is sold
      beyond it, and what the trade books is what the exchange matched and paid. */
  lemma {:induction false} NeverOversells(u: Setup, log: seq<Attempt>)
    requires Lawful(u, log) && HonestExchange(u.exchange) && u.start.position > 0.0
    ensures var e := BooksAfter(u, log);
            && 0.0 <= ExchangeSold(log) <= u.start.position
            && e.sold == u.start.sold + ExchangeSold(log) && e.position == u.start.position - ExchangeSold(log)
            && e.revenue == u.start.revenue + ExchangePaid(log)
    ensures forall k :: 0 <= k < |log| ==> 0.0 < log[k].size <= log[k].position <= u.start.position
    ensures Open(u, log) ==> 0.0 < Offer(u, log) <= BooksAfter(u, log).position
  {
    if log != [] {
      var a := Last(log);
      NeverOversells(u, Front(log));
      assert a.answer == u.exchange(|log|, a.size);
      BookedIsMatched(BooksAfter(u, Front(log)), a, u.minOrderSize);
      RetryIsLess(a, u.minOrderSize);
      HeldIsPosition(u, log);
      forall k | 0 <= k < |log| ensures 0.0 < log[k].size <= log[k].position <= u.start.position {
        assert k < |log| - 1 ==> log[k] == Front(log)[k];
      }
      hide Booked, Honest, RetryAfter, Matched, Proceeds;
    }
  }

  lemma HeldIsPosition(u: Setup, log: seq<Attempt>)
    requires log != [] && Lawful(u, log) && Last(log).answer.before == []
    ensures Last(log).held == Last(log).position == BooksAfter(u, Front(log)).position
  {
  }

  /** Against an honest exchange a log that neither rests nor breaks off ends in a normal exit
      exactly when everything was sold. */
  lemma NormalExitExactly(u: Setup, log: seq<Attempt>)
    requires Lawful(u, log) && HonestExchange(u.exchange) && u.start.position > 0.0
    ensures Verdict(u, log) == Some(NormalExit) ==> ExchangeSold(log) == u.start.position
    ensures ExchangeSold(log) == u.start.position && !Rests(u, log) ==> Verdict(u, log) == Some(NormalExit)
  {
    NeverOversells(u, log);
    if log != [] && GivesUp(log) {
      NeverOversells(u, Front(log));
    }
  }

  // ---- Late callbacks ----

  // As honest, but fill callbacks may run after the cancel of their order, or when the loop
  // no longer waits for it, at any await.
  predicate Overtaken(a: Attempt, minOrderSize: Option<real>) {
    var turn := a.answer.turn;
    && LateOnly(a.answer.before) && LateOnly(Slept(a, minOrderSize))
    && (turn.Accepted? ==>
          0.0 <= turn.filled <= a.size && (!turn.complete ==> Proper(turn.orderId, turn.filled, a.size, false, turn.calls)))
  }

  // The fills of an attempt that come late.
  function Late(a: Attempt, minOrderSize: Option<real>): seq<Update> {
    var turn := a.answer.turn;
    UpdatesOf(a.answer.before) + UpdatesOf(Slept(a, minOrderSize)) + OwnLate(turn)
  }

  function OwnLate(turn: Turn): seq<Update> {
    if turn.Accepted? && !turn.complete then LateFills(turn.orderId, false, turn.calls) else []
  }

  function LateShares(log: seq<Attempt>, minOrderSize: Option<real>): real {
    if log == [] then 0.0 else LateShares(Front(log), minOrderSize) + Shares(Late(Last(log), minOrderSize))
  }

  lemma {:induction false} SharesAdd(a: seq<Update>, b: seq<Update>)
    ensures Shares(a + b) == Shares(a) + Shares(b)
  {
    if a == [] {
      assert a + b == b;
    } else {
      assert (a + b)[1..] == a[1..] + b;
      SharesAdd(a[1..], b);
    }
  }

  lemma LateWait(b: Books, orderId: string, filled: real, size: real, calls: seq<Call>)
    requires filled <= size && Proper(orderId, filled, size, false, calls)
    ensures var e, m, late := Waited(b, orderId, filled, calls), OwnMatch(orderId, filled, false, calls),
                              LateFills(orderId, false, calls);
            && e.sold == b.sold + (m - filled) + Shares(late) && e.position == b.position - (m - filled) - Shares(late)
            && Shares(late) >= 0.0 && (Shares(late) == 0.0 <==> late == [])
  {
    hide AfterCalls, Known, Proper, OwnMatch, LateFills, Shares, WaitBegun, Waited;
    WaitingBegins(b, orderId, filled);
    WaitingEnds(b, orderId, filled, calls);
    LateIsOnTop(WaitBegun(b, orderId, filled), orderId, filled, size, false, calls);
  }

  // What is booked of an answer itself, the callbacks before and after it apart.
  lemma LateFollowed(b: Books, a: Attempt, minOrderSize: Option<real>)
    requires Overtaken(a, minOrderSize) && a.answer.turn.Accepted?
    ensures var e, late := Followed(b, a), OwnLate(a.answer.turn);
            && e.sold == b.sold + Matched(a.answer.turn) + Shares(late)
            && e.position == b.position - Matched(a.answer.turn) - Shares(late)
            && Shares(late) >= 0.0 && (Shares(late) == 0.0 <==> late == [])
  {
    var turn := a.answer.turn;
    assert Shares([]) == 0.0;
    hide AfterCalls, Proper, OwnMatch, LateFills, Shares, Waited, OrderPlaced, LateOnly, RetryAfter;
    PlacingBooks(b, a);
    if !turn.complete {
      LateWait(OrderPlaced(b, a).(sellPrice := a.limit), turn.orderId, turn.filled, a.size, turn.calls);
    }
  }

  /** An attempt books what the exchange reported of its order and the late shares on top. */
  lemma LateIsBooked(b: Books, a: Attempt, minOrderSize: Option<real>)
    requires Overtaken(a, minOrderSize)
    ensures var e, late := Booked(b, a, minOrderSize), Late(a, minOrderSize);
            && e.sold == b.sold + Matched(a.answer.turn) + Shares(late)
            && e.position == b.position - Matched(a.answer.turn) - Shares(late)
            && Shares(late) >= 0.0 && (Shares(late) == 0.0 <==> late == [])
  {
    var turn, slept := a.answer.turn, Slept(a, minOrderSize);
    assert turn.Accepted? ==> slept == [];
    assert Shares([]) == 0.0;
    var b1 := AfterCalls(b, a.answer.before);
    SharesAdd(UpdatesOf(a.answer.before), UpdatesOf(slept));
    SharesAdd(UpdatesOf(a.answer.before) + UpdatesOf(slept), OwnLate(turn));
    EmptyUpdates(a.answer.before);
    EmptyUpdates(slept);
    if turn.Accepted? {
      LateFollowed(b1, a, minOrderSize);
    }
    hide AfterCalls, Slept, UpdatesOf, LateOnly, Shares, Followed, LateFills, OwnMatch, Proper;
    LateOnlyAdds(b, a.answer.before);
    LateOnlyAdds(b1, slept);
  }

  lemma EmptyUpdates(calls: seq<Call>)
    ensures UpdatesOf(calls) == [] <==> calls == []
  {
  }

  lemma NoneLateSoFar(front: seq<Attempt>, last: Attempt, minOrderSize: Option<real>)
    ensures NoneLate(front + [last], minOrderSize) <==> NoneLate(front, minOrderSize) && Late(last, minOrderSize) == []
  {
    hide Late;
    assert (front + [last])[|front|] == last;
    assert forall k :: 0 <= k < |front| ==> (front + [last])[k] == front[k];
  }

  predicate NoneLate(log: seq<Attempt>, minOrderSize: Option<real>) {
    forall k :: 0 <= k < |log| ==> Late(log[k], minOrderSize) == []
  }

  /** When fill callbacks come late, the books are what the exchange reported of each order by
      the end of the wait for it, plus all late shares: the two agree if and only if no
      callback came late. */
  lemma {:induction false} LateSharesOnTop(u: Setup, log: seq<Attempt>)
    requires forall k :: 0 <= k < |log| ==> Overtaken(log[k], u.minOrderSize)
    ensures var e, late := BooksAfter(u, log), LateShares(log, u.minOrderSize);
            && e.sold == u.start.sold + ExchangeSold(log) + late
            && e.position == u.start.position - ExchangeSold(log) - late
            && late >= 0.0
            && (late == 0.0 <==> NoneLate(log, u.minOrderSize))
  {
    if log != [] {
      hide Booked, Late, Shares, Matched, Overtaken;
      var front, last := Front(log), Last(log);
      assert forall k :: 0 <= k < |log| ==> log[k] == if k < |front| then front[k] else last;
      LateSharesOnTop(u, front);
      LateIsBooked(BooksAfter(u, front), last, u.minOrderSize);
      NoneLateSoFar(front, last, u.minOrderSize);
      assert log == front + [last];
    }
  }
}
