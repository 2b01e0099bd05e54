/** What each attempt of the selling loop offers, at what limit and when at once again, when
    and why the trade closes, and what its shares bring in at least. */
module SellVerdicts {
  import opened Prelude
  import opened BuyEntry
  import opened SellExit
  import opened SellAttempts

  // ---- Why a trade closes ----

  // The attempts that were refused for their tick.
  function RefusedTicks(log: seq<Attempt>): set<nat> {
    set k: nat | k < |log| && log[k].answer.turn.InvalidTick?
  }

  lemma {:induction false} TicksAreCounted(log: seq<Attempt>)
    ensures InvalidTicks(log) == |RefusedTicks(log)|
  {
    if log != [] {
      var n := |log| - 1;
      TicksAreCounted(Front(log));
      assert forall k: nat :: k < n ==> Front(log)[k] == log[k];
      assert RefusedTicks(log) == RefusedTicks(Front(log)) + if log[n].answer.turn.InvalidTick? then {n} else {};
    }
  }

  // The last attempt failed for good: the failure tracker gave up, there is no agreed tick,
  // or three ticks had been refused before.
  predicate FailedForGood(log: seq<Attempt>) {
    log != [] &&
    match Last(log).answer.turn
    case Failed(stop, _) => stop
    case InvalidTick(newTick) => newTick.None? || |RefusedTicks(Front(log))| >= 3
    case BalanceLag(_, _) => false
    case Accepted(_, _, _, _, _) => false
  }

  // The last order was accepted, was not complete at once, and nothing has ended its wait.
  predicate StillRests(u: Setup, log: seq<Attempt>) {
    log != [] && Last(log).answer.turn.Accepted? && !Last(log).answer.turn.complete && !BooksAfter(u, log).done
  }

  /** A trade closes as dust exactly when it holds something, but less than the minimum; by a
      normal exit exactly when it holds nothing; both only when its last attempt neither
      failed for good nor rests. It closes for a failure exactly when that is for good, and
      the failure is one of parsing exactly when a matched reply had no amounts. */
  lemma ClosesExactly(u: Setup, log: seq<Attempt>)
    ensures var verdict, position := Verdict(u, log), BooksAfter(u, log).position;
            var goesOn := !FailedForGood(log) && !StillRests(u, log);
            && (verdict == Some(DustPosition) <==>
                  goesOn && 0.0 < position && u.minOrderSize.Some? && position < u.minOrderSize.value)
            && (verdict == Some(NormalExit) <==> goesOn && position <= 0.0)
            && (verdict == Some(SellFillParseError) <==>
                  FailedForGood(log) && Last(log).answer.turn.Failed? && Last(log).answer.turn.missingFill)
            && (verdict == Some(SellPlacementFailed) <==>
                  FailedForGood(log) && !(Last(log).answer.turn.Failed? && Last(log).answer.turn.missingFill))
            && (verdict.None? <==>
                  !FailedForGood(log) &&
                  (StillRests(u, log)
                   || (0.0 < position && (u.minOrderSize.None? || position >= u.minOrderSize.value))))
  {
    hide BooksAfter;
    if log != [] {
      TicksAreCounted(Front(log));
    }
  }

  // ---- What an attempt is ----

  /** Every attempt offers the whole position, or, after a lagging balance, the retry; at one
      minus the tick, as refreshed by the last attempt that was refused for it. */
  lemma {:induction false} AttemptsExactly(u: Setup, log: seq<Attempt>, k: nat)
    requires Lawful(u, log) && k < |log|
    ensures var a := log[k];
            var retry := if k == 0 then None else RetryAfter(log[k - 1], u.minOrderSize);
            && a.position == BooksAfter(u, log[..k]).position > 0.0
            && (u.minOrderSize.Some? ==> a.position >= u.minOrderSize.value)
            && a.size == (if retry.Some? && retry.value != 0.0 then retry.value else a.position)
            && a.answer == u.exchange(k + 1, a.size)
    ensures log[k].limit == if k == 0 then 1.0 - u.tick
                            else if log[k - 1].answer.turn.InvalidTick? && log[k - 1].answer.turn.newTick.Some?
                            then 1.0 - log[k - 1].answer.turn.newTick.value
                            else log[k - 1].limit
  {
    if k < |log| - 1 {
      assert Front(log)[..k] == log[..k];
      AttemptsExactly(u, Front(log), k);
    } else {
      assert log[..k] == Front(log);
      hide BooksAfter, RetryAfter;
    }
  }

  /** The loop tries again at once exactly when the balance leaves less than was offered and
      the minimum is met; it then offers what is left of the position and the balance, cut
      to whole cents. */
  lemma RetriesExactly(a: Attempt, minOrderSize: Option<real>, balance: Option<nat>, matched: Option<nat>, cents: real)
    requires a.answer.turn == BalanceLag(balance, matched)
    requires ParseSellable(balance, matched) == Some(cents)
    ensures var retry := RetryAfter(a, minOrderSize);
            && (retry.Some? <==> minOrderSize.Some? && cents >= minOrderSize.value && (a.held < a.size || cents < a.size))
            && (retry.Some? && a.held >= 0.0 ==>
                  && WholeCents(retry.value)
                  && retry.value <= a.held && retry.value <= cents
                  && (a.held < retry.value + 0.01 || retry.value == cents))
  {
    var left := balance.value - if matched.Some? then matched.value else 0;
    CentsRoundDown(left as real / 1_000_000.0);
    CentsRoundDown(cents);
    CentsRoundDown(a.held);
  }

  /** Without anything to sell in the error, or after any other answer, it does not. */
  lemma OtherwiseSleeps(a: Attempt, minOrderSize: Option<real>)
    requires !a.answer.turn.BalanceLag? || ParseSellable(a.answer.turn.balance, a.answer.turn.matched).None?
    ensures RetryAfter(a, minOrderSize).None?
    ensures !a.answer.turn.Accepted? ==> Slept(a, minOrderSize) == a.answer.after
  {
  }

  // ---- Orders are forgotten ----

  /** An order that was complete at once, or whose wait is over, is known no longer. */
  lemma EndedIsForgotten(b: Books, a: Attempt)
    requires a.answer.turn.Accepted?
    ensures var turn, e := a.answer.turn, Followed(b, a);
            && (turn.complete || e.done ==> turn.orderId !in e.sizes)
            && (!turn.complete && e.done ==> turn.orderId !in e.matched)
  {
    hide AfterCalls, ExecutionPrice;
  }

  // ---- At what price ----

  // Nothing is executed below the limit of its order.
  predicate AtLimitOrBetter(a: Attempt) {
    a.answer.turn.Accepted? ==>
      && (a.answer.turn.price.Some? && a.answer.turn.price.value > 0.0 ==> a.answer.turn.price.value >= a.limit)
      && PricedFrom(a.limit, UpdatesOf(a.answer.turn.calls))
  }

  predicate PricedFrom(limit: real, us: seq<Update>) {
    forall k :: 0 <= k < |us| && us[k].FillUpdate? ==> us[k].price >= limit
  }

  function At(shares: real, price: real): real {
    shares * price
  }

  lemma AtLeast(shares: real, price: real, limit: real)
    requires shares >= 0.0 && price >= limit
    ensures At(shares, price) >= At(shares, limit)
  {
  }

  lemma AtAdds(x: real, y: real, limit: real)
    ensures At(x, limit) + At(y, limit) == At(x + y, limit)
  {
  }

  lemma FirstRevenue(known: real, size: real, limit: real, us: seq<Update>)
    requires us != [] && Consecutive(known, size, us) && PricedFrom(limit, us)
    ensures var m := if us[0].FillUpdate? then us[0].total else us[0].matched;
            && Revenue(known, limit, us) >= At(m - known, limit) + Revenue(m, limit, us[1..])
            && PricedFrom(limit, us[1..])
  {
    hide Consecutive, Revenue, FinalMatch;
    FirstUpdate(known, limit, size, us);
    if us[0].FillUpdate? {
      assert At(us[0].size, us[0].price) == us[0].size * us[0].price;
      hide At;
      AtLeast(us[0].size, us[0].price, limit);
    }
  }

  lemma {:induction false} RevenueFromLimit(known: real, size: real, limit: real, us: seq<Update>)
    requires Consecutive(known, size, us) && known <= size && PricedFrom(limit, us)
    ensures Revenue(known, limit, us) >= At(FinalMatch(known, us) - known, limit)
    decreases |us|
  {
    if us == [] {
      NothingToReport(known, limit);
    } else {
      var m := if us[0].FillUpdate? then us[0].total else us[0].matched;
      hide Revenue, FinalMatch, Consecutive, PricedFrom, At;
      FirstUpdate(known, limit, size, us);
      FirstRevenue(known, size, limit, us);
      RevenueFromLimit(m, size, limit, us[1..]);
      AtAdds(m - known, FinalMatch(m, us[1..]) - m, limit);
      assert m - known + (FinalMatch(m, us[1..]) - m) == FinalMatch(known, us) - known;
    }
  }

  lemma ImmediateFromLimit(filled: real, price: Option<real>, limit: real)
    requires filled >= 0.0 && (price.Some? && price.value > 0.0 ==> price.value >= limit)
    ensures filled * ExecutionPrice(price, limit) >= At(filled, limit)
  {
    AtLeast(filled, ExecutionPrice(price, limit), limit);
  }

  lemma ProceedsFromLimit(a: Attempt)
    requires Honest(a.answer, a.size) && AtLimitOrBetter(a)
    ensures Proceeds(a.answer.turn, a.limit) >= At(Matched(a.answer.turn), a.limit)
  {
    var turn := a.answer.turn;
    if turn.Accepted? {
      ImmediateFromLimit(turn.filled, turn.price, a.limit);
      hide Revenue, FinalMatch, Consecutive, PricedFrom, OwnMatch, UpdatesOf, AllOf, At, ExecutionPrice;
      if !turn.complete {
        var us := UpdatesOf(turn.calls);
        OwnIsFinal(turn.orderId, turn.filled, a.size, turn.calls);
        RevenueFromLimit(turn.filled, a.size, a.limit, us);
        AtAdds(turn.filled, FinalMatch(turn.filled, us) - turn.filled, a.limit);
        assert turn.filled + (FinalMatch(turn.filled, us) - turn.filled) == FinalMatch(turn.filled, us);
      }
    } else {
      assert At(0.0, a.limit) == 0.0;
    }
  }

  // The last attempt of a lawful log against an honest exchange, in the books.
  lemma LastIsBooked(u: Setup, log: seq<Attempt>)
    requires log != [] && Lawful(u, log) && HonestExchange(u.exchange) && u.start.position > 0.0
    ensures var b, e, a := BooksAfter(u, Front(log)), BooksAfter(u, log), Last(log);
            && Honest(a.answer, a.size)
            && e.sold == b.sold + Matched(a.answer.turn) && e.revenue == b.revenue + Proceeds(a.answer.turn, a.limit)
            && Matched(a.answer.turn) >= 0.0
  {
    var a := Last(log);
    NeverOversells(u, Front(log));
    assert a.answer == u.exchange(|log|, a.size) && 0.0 < a.size <= BooksAfter(u, Front(log)).position;
    BookedIsMatched(BooksAfter(u, Front(log)), a, u.minOrderSize);
    BooksStep(u, log);
    hide Booked, Matched, Proceeds, BooksAfter;
  }

  lemma NothingSoldYet(u: Setup, lowest: real)
    ensures BooksAfter(u, []) == u.start && At(0.0, lowest) == 0.0
  {
  }

  lemma {:induction false} SoldFromLimit(u: Setup, log: seq<Attempt>, lowest: real)
    requires Lawful(u, log) && HonestExchange(u.exchange) && u.start.position > 0.0
    requires forall k :: 0 <= k < |log| ==> AtLimitOrBetter(log[k]) && log[k].limit >= lowest
    ensures var e := BooksAfter(u, log);
            e.revenue - u.start.revenue >= At(e.sold - u.start.sold, lowest)
  {
    hide BooksAfter, Honest, AtLimitOrBetter, Booked, Proceeds, Matched, Open, HonestExchange, At, SellAttempts.Next;
    if log == [] {
      NothingSoldYet(u, lowest);
    } else {
      var a, b := Last(log), BooksAfter(u, Front(log));
      assert forall k :: 0 <= k < |Front(log)| ==> Front(log)[k] == log[k];
      SoldFromLimit(u, Front(log), lowest);
      LastIsBooked(u, log);
      ProceedsFromLimit(a);
      AtLeast(Matched(a.answer.turn), a.limit, lowest);
      AtAdds(b.sold - u.start.sold, Matched(a.answer.turn), lowest);
      assert b.sold - u.start.sold + Matched(a.answer.turn) == BooksAfter(u, log).sold - u.start.sold;
    }
  }

  /** Against an honest exchange that executes every order at its limit or better, all that is
      sold brings in at least the lowest limit. */
  lemma NeverBelowLimit(u: Setup, log: seq<Attempt>, lowest: real)
    requires Lawful(u, log) && HonestExchange(u.exchange) && u.start.position > 0.0
    requires forall k :: 0 <= k < |log| ==> AtLimitOrBetter(log[k]) && log[k].limit >= lowest
    ensures var e := BooksAfter(u, log);
            e.revenue - u.start.revenue >= (e.sold - u.start.sold) * lowest
  {
    hide BooksAfter, AtLimitOrBetter, HonestExchange, Lawful;
    SoldFromLimit(u, log, lowest);
  }

  // Every price that is named is the limit.
  predicate AtLimitOnly(a: Attempt) {
    a.answer.turn.Accepted? ==>
      && (a.answer.turn.price.Some? && a.answer.turn.price.value > 0.0 ==> a.answer.turn.price.value == a.limit)
      && forall k :: 0 <= k < |UpdatesOf(a.answer.turn.calls)| && UpdatesOf(a.answer.turn.calls)[k].FillUpdate? ==>
           UpdatesOf(a.answer.turn.calls)[k].price == a.limit
  }

  lemma FirstAtLimit(known: real, size: real, limit: real, us: seq<Update>)
    requires us != [] && Consecutive(known, size, us) && (us[0].FillUpdate? ==> us[0].price == limit)
    ensures var m := if us[0].FillUpdate? then us[0].total else us[0].matched;
            Revenue(known, limit, us) == At(m - known, limit) + Revenue(m, limit, us[1..])
  {
    FirstUpdate(known, limit, size, us);
    hide Consecutive, Revenue;
  }

  lemma {:induction false} RevenueAtLimit(known: real, size: real, limit: real, us: seq<Update>)
    requires Consecutive(known, size, us) && known <= size
    requires forall k :: 0 <= k < |us| && us[k].FillUpdate? ==> us[k].price == limit
    ensures Revenue(known, limit, us) == At(FinalMatch(known, us) - known, limit)
    decreases |us|
  {
    if us == [] {
      NothingToReport(known, limit);
    } else {
      var m := if us[0].FillUpdate? then us[0].total else us[0].matched;
      hide FinalMatch, Consecutive, At, Revenue;
      FirstUpdate(known, limit, size, us);
      FirstAtLimit(known, size, limit, us);
      RevenueAtLimit(m, size, limit, us[1..]);
      AtAdds(m - known, FinalMatch(m, us[1..]) - m, limit);
      assert m - known + (FinalMatch(m, us[1..]) - m) == FinalMatch(known, us) - known;
    }
  }

  /** Where the exchange names no price, or only the limit, the limit is what is booked. */
  lemma LimitStandsIn(a: Attempt)
    requires Honest(a.answer, a.size) && AtLimitOnly(a)
    ensures Proceeds(a.answer.turn, a.limit) == At(Matched(a.answer.turn), a.limit)
  {
    var turn := a.answer.turn;
    if turn.Accepted? {
      assert turn.filled * ExecutionPrice(turn.price, a.limit) == At(turn.filled, a.limit);
      hide Revenue, FinalMatch, Consecutive, OwnMatch, UpdatesOf, AllOf, At, ExecutionPrice;
      if !turn.complete {
        var us := UpdatesOf(turn.calls);
        OwnIsFinal(turn.orderId, turn.filled, a.size, turn.calls);
        RevenueAtLimit(turn.filled, a.size, a.limit, us);
        AtAdds(turn.filled, FinalMatch(turn.filled, us) - turn.filled, a.limit);
        assert turn.filled + (FinalMatch(turn.filled, us) - turn.filled) == FinalMatch(turn.filled, us);
      }
    } else {
      assert At(0.0, a.limit) == 0.0;
    }
  }
}
