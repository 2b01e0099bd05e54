/** Selling a position: the callbacks of a resting SELL as functions on the trade's books,
    the error text that tells how much can be sold, and what they guarantee. */
module SellExit {
  import opened Prelude

  // What a user-channel message makes of a resting SELL.
  datatype Update = FillUpdate(size: real, price: real, total: real) | CancelUpdate(matched: real)

  // The trade's exit fields: position, shares sold, revenue, the cumulative match and the
  // size known per order, the price of the resting order, and the two flags of the wait.
  datatype Books = Books(position: real, sold: real, revenue: real,
                         matched: map<string, real>, sizes: map<string, real>,
                         sellPrice: real, cancelled: bool, done: bool)

  function RecordSell(b: Books, size: real, price: real): Books {
    b.(position := b.position - size, sold := b.sold + size, revenue := b.revenue + size * price)
  }

  function Known(b: Books, orderId: string): real {
    if orderId in b.matched then b.matched[orderId] else 0.0
  }

  function OnSellFill(b: Books, orderId: string, size: real, price: real, total: real): Books {
    var b := b.(matched := b.matched[orderId := Max(Known(b, orderId), total)]);
    var b := RecordSell(b, size, price);
    if b.position <= 0.0 || (orderId in b.sizes && total >= b.sizes[orderId]) then b.(done := true) else b
  }

  function OnSellCancel(b: Books, orderId: string, sizeMatched: real): Books {
    var known := Known(b, orderId);
    var b := if sizeMatched > known then RecordSell(b, sizeMatched - known, b.sellPrice) else b;
    b.(cancelled := true, matched := b.matched - {orderId}, sizes := b.sizes - {orderId}, done := true)
  }

  function OnUpdate(b: Books, orderId: string, u: Update): Books {
    match u
    case FillUpdate(size, price, total) => OnSellFill(b, orderId, size, price, total)
    case CancelUpdate(m) => OnSellCancel(b, orderId, m)
  }

  function OnUpdates(b: Books, orderId: string, us: seq<Update>): Books
    decreases |us|
  {
    if us == [] then b else OnUpdates(OnUpdate(b, orderId, us[0]), orderId, us[1..])
  }

  // Fills that follow each other from a cumulative match on, and stay within the order.
  predicate Consecutive(known: real, size: real, us: seq<Update>)
    decreases |us|
  {
    us == [] ||
    match us[0]
    case FillUpdate(q, _, total) => q > 0.0 && total == known + q && total <= size && Consecutive(total, size, us[1..])
    case CancelUpdate(m) => known <= m <= size && us[1..] == []
  }

  // The cumulative match that the updates end with.
  function FinalMatch(known: real, us: seq<Update>): real
    decreases |us|
  {
    if us == [] then known
    else FinalMatch(if us[0].FillUpdate? then us[0].total else us[0].matched, us[1..])
  }

  // What the updates bring in: each fill at its price, and what only the cancel reports at
  // the limit.
  function Revenue(known: real, limit: real, us: seq<Update>): real
    decreases |us|
  {
    if us == [] then 0.0
    else match us[0]
         case FillUpdate(size, price, total) => size * price + Revenue(total, limit, us[1..])
         case CancelUpdate(m) => (m - known) * limit + Revenue(m, limit, us[1..])
  }

  // Matched in full, or cancelled.
  predicate Ended(known: real, size: real, us: seq<Update>) {
    us != [] && (us[|us| - 1].CancelUpdate? || FinalMatch(known, us) == size)
  }

  lemma {:induction false} FinalMatchFits(known: real, size: real, us: seq<Update>)
    requires known <= size && Consecutive(known, size, us)
    ensures known <= FinalMatch(known, us) <= size
    decreases |us|
  {
    if us != [] {
      FinalMatchFits(if us[0].FillUpdate? then us[0].total else us[0].matched, size, us[1..]);
    }
  }

  // One update taken off the front.
  lemma FirstUpdate(known: real, limit: real, size: real, us: seq<Update>)
    requires us != [] && Consecutive(known, size, us)
    ensures var m := if us[0].FillUpdate? then us[0].total else us[0].matched;
            && known <= m <= size && Consecutive(m, size, us[1..])
            && FinalMatch(known, us) == FinalMatch(m, us[1..])
            && Revenue(known, limit, us) ==
               (if us[0].FillUpdate? then us[0].size * us[0].price else (m - known) * limit) + Revenue(m, limit, us[1..])
            && (us[0].FillUpdate? ==> us[0].size == m - known > 0.0)
            && (us[0].CancelUpdate? ==> us[1..] == [])
  {
  }

  lemma FillInFront(known: real, size: real, fill: Update, us: seq<Update>)
    requires fill.FillUpdate? && fill.size > 0.0 && fill.total == known + fill.size <= size
    requires Consecutive(fill.total, size, us)
    ensures Consecutive(known, size, [fill] + us) && FinalMatch(known, [fill] + us) == FinalMatch(fill.total, us)
  {
  }

  // An order matched in full has nothing more to report.
  lemma NothingAfterFull(size: real, us: seq<Update>)
    requires Consecutive(size, size, us)
    ensures FinalMatch(size, us) == size && forall limit :: Revenue(size, limit, us) == 0.0
  {
  }

  lemma NothingToReport(known: real, limit: real)
    ensures FinalMatch(known, []) == known && Revenue(known, limit, []) == 0.0
  {
  }

  // What one update does to the books of a waiting SELL that is known to be matched so far.
  lemma UpdateKeepsBooks(b: Books, orderId: string, size: real, known: real, u: Update)
    requires !b.done && orderId in b.sizes && b.sizes[orderId] == size && Known(b, orderId) == known
    requires size - known <= b.position
    requires if u.FillUpdate? then u.size == u.total - known > 0.0 && u.total <= size else known <= u.matched <= size
    ensures var m := if u.FillUpdate? then u.total else u.matched;
            var e := OnUpdate(b, orderId, u);
            && e.sold == b.sold + (m - known) && e.position == b.position - (m - known)
            && e.revenue == b.revenue + (if u.FillUpdate? then u.size * u.price else (m - known) * b.sellPrice)
            && e.sellPrice == b.sellPrice
            && (e.done <==> u.CancelUpdate? || m == size)
            && (u.FillUpdate? ==> e.sizes == b.sizes && Known(e, orderId) == m)
            && (u.CancelUpdate? ==> orderId !in e.sizes && orderId !in e.matched)
            && e.cancelled == (u.CancelUpdate? || b.cancelled)
  {
  }

  lemma AfterFull(size: real, us: seq<Update>)
    requires Consecutive(size, size, us)
    ensures us == [] || us == [CancelUpdate(size)]
  {
    if us != [] {
      assert us == [us[0]] + us[1..];
    }
  }

  /** Against every honest sequence of updates, a wait books exactly the shares that the
      exchange matched, at the prices it matched them, and is over exactly when the order
      was matched in full or cancelled. */
  lemma {:induction false} WaitingIsExact(b: Books, orderId: string, known: real, size: real, us: seq<Update>)
    requires !b.done && orderId in b.sizes && b.sizes[orderId] == size && Known(b, orderId) == known
    requires known <= size && size - known <= b.position && Consecutive(known, size, us)
    ensures var e := OnUpdates(b, orderId, us);
            && e.sold - b.sold == b.position - e.position == FinalMatch(known, us) - known
            && e.revenue - b.revenue == Revenue(known, b.sellPrice, us)
            && e.done == Ended(known, size, us)
    decreases |us|
  {
    if us == [] {
      NothingToReport(known, b.sellPrice);
    } else {
      var m := if us[0].FillUpdate? then us[0].total else us[0].matched;
      var e := OnUpdate(b, orderId, us[0]);
      UpdateIsExact(b, orderId, known, size, us);
      if us[0].FillUpdate? && m < size {
        hide OnUpdate, Known, Consecutive, Revenue, FinalMatch, Ended;
        WaitingIsExact(e, orderId, m, size, us[1..]);
      } else if us[0].FillUpdate? {
        FirstUpdate(known, b.sellPrice, size, us);
        UpdateKeepsBooks(b, orderId, size, known, us[0]);
        AfterFull(size, us[1..]);
        NothingMore(e, orderId, size, us[1..]);
        hide OnUpdate, Known, Consecutive, Revenue, FinalMatch, Ended;
      } else {
        FirstUpdate(known, b.sellPrice, size, us);
        assert OnUpdates(e, orderId, []) == e;
        hide OnUpdate, Known, Consecutive, Revenue, FinalMatch, Ended;
      }
    }
  }

  // The cancel of an order that is known to be matched in full changes no figure.
  lemma NothingMore(b: Books, orderId: string, size: real, us: seq<Update>)
    requires b.done && Known(b, orderId) == size && (us == [] || us == [CancelUpdate(size)])
    ensures var e := OnUpdates(b, orderId, us);
            e.done && e.sold == b.sold && e.position == b.position && e.revenue == b.revenue
  {
    if us != [] {
      assert us[1..] == [];
    }
  }

  lemma UpdateIsExact(b: Books, orderId: string, known: real, size: real, us: seq<Update>)
    requires !b.done && orderId in b.sizes && b.sizes[orderId] == size && Known(b, orderId) == known
    requires known <= size && size - known <= b.position && Consecutive(known, size, us) && us != []
    ensures var m := if us[0].FillUpdate? then us[0].total else us[0].matched;
            var e := OnUpdate(b, orderId, us[0]);
            && m <= size && Consecutive(m, size, us[1..]) && FinalMatch(known, us) == FinalMatch(m, us[1..])
            && e.sold - b.sold == b.position - e.position == m - known
            && e.revenue + Revenue(m, b.sellPrice, us[1..]) == b.revenue + Revenue(known, b.sellPrice, us)
            && e.sellPrice == b.sellPrice
            && e.done == (us[0].CancelUpdate? || m == size)
            && (e.done ==> FinalMatch(m, us[1..]) == m && Revenue(m, b.sellPrice, us[1..]) == 0.0 && Ended(known, size, us))
            && (us[0].FillUpdate? ==> Known(e, orderId) == m)
            && (!e.done ==> e.sizes == b.sizes && Ended(known, size, us) == Ended(m, size, us[1..]))
  {
    var m := if us[0].FillUpdate? then us[0].total else us[0].matched;
    FirstUpdate(known, b.sellPrice, size, us);
    UpdateKeepsBooks(b, orderId, size, known, us[0]);
    NothingToReport(m, b.sellPrice);
    if m == size {
      NothingAfterFull(size, us[1..]);
    }
    hide OnUpdate, Known, Consecutive, Revenue, FinalMatch;
  }

  predicate OnlyFills(us: seq<Update>) {
    forall k :: 0 <= k < |us| ==> us[k].FillUpdate?
  }

  function Shares(us: seq<Update>): real {
    if us == [] then 0.0 else (if us[0].FillUpdate? then us[0].size else 0.0) + Shares(us[1..])
  }

  lemma {:induction false} FillsAreRecorded(b: Books, orderId: string, known: real, size: real, us: seq<Update>)
    requires OnlyFills(us) && Consecutive(known, size, us)
    requires Known(b, orderId) <= known
    ensures OnUpdates(b, orderId, us).sold == b.sold + Shares(us)
    ensures OnUpdates(b, orderId, us).position == b.position - Shares(us)
    ensures us != [] ==> Known(OnUpdates(b, orderId, us), orderId) == known + Shares(us)
    ensures Shares(us) >= 0.0 && (Shares(us) == 0.0 <==> us == [])
    decreases |us|
  {
    if us != [] {
      FillsAreRecorded(OnUpdate(b, orderId, us[0]), orderId, us[0].total, size, us[1..]);
    }
  }

  /** The exchange cancels an order of which known was matched at once, after some fills whose
      callbacks have run and some whose callbacks are still waiting, and reports at least
      all of these; the cancel callback runs at once and the waiting ones after it. What the
      trade records is the exchange's match exactly when no callback was waiting; the
      waiting shares are recorded twice. */
  lemma CancelOvertakesFills(b: Books, orderId: string, known: real, size: real, ran: seq<Update>, waiting: seq<Update>,
                             matched: real)
    requires OnlyFills(ran) && OnlyFills(waiting)
    requires known == Known(b, orderId) >= 0.0 && Consecutive(known, size, ran)
    requires Consecutive(known + Shares(ran), size, waiting)
    requires matched >= known + Shares(ran) + Shares(waiting)
    ensures var e := OnUpdates(OnSellCancel(OnUpdates(b, orderId, ran), orderId, matched), orderId, waiting);
            && e.sold == b.sold + (matched - known) + Shares(waiting)
            && e.position == b.position - (matched - known) - Shares(waiting)
            && (e.sold - b.sold == matched - known <==> waiting == [])
  {
    FillsAreRecorded(b, orderId, known, size, ran);
    var cancelled := OnSellCancel(OnUpdates(b, orderId, ran), orderId, matched);
    FillsAreRecorded(cancelled, orderId, known + Shares(ran), size, waiting);
  }

  /** One fill of 4 shares whose callback is waiting when the cancel reports those 4: the
      trade records 8 shares sold. */
  lemma CancelCountsTwice(b: Books, orderId: string, price: real)
    requires Known(b, orderId) == 0.0
    ensures var e := OnUpdates(OnSellCancel(b, orderId, 4.0), orderId, [FillUpdate(4.0, price, 4.0)]);
            e.sold == b.sold + 8.0 && e.position == b.position - 8.0
  {
    var waiting := [FillUpdate(4.0, price, 4.0)];
    assert waiting[1..] == [];
    assert Shares(waiting) == 4.0;
    CancelOvertakesFills(b, orderId, 0.0, 4.0, [], waiting, 4.0);
  }

  // ---- Callbacks of several orders, in any order ----

  datatype Call = Call(orderId: string, update: Update)

  function AfterCalls(b: Books, calls: seq<Call>): Books
    decreases |calls|
  {
    if calls == [] then b else AfterCalls(OnUpdate(b, calls[0].orderId, calls[0].update), calls[1..])
  }

  lemma NoCalls(b: Books)
    ensures AfterCalls(b, []) == b
  {
  }

  function UpdatesOf(calls: seq<Call>): seq<Update> {
    if calls == [] then [] else [calls[0].update] + UpdatesOf(calls[1..])
  }

  predicate AllOf(orderId: string, calls: seq<Call>) {
    forall k :: 0 <= k < |calls| ==> calls[k].orderId == orderId
  }

  lemma {:induction false} OwnCalls(b: Books, orderId: string, calls: seq<Call>)
    requires AllOf(orderId, calls)
    ensures AfterCalls(b, calls) == OnUpdates(b, orderId, UpdatesOf(calls))
    decreases |calls|
  {
    if calls != [] {
      assert UpdatesOf(calls)[1..] == UpdatesOf(calls[1..]);
      OwnCalls(OnUpdate(b, orderId, calls[0].update), orderId, calls[1..]);
    }
  }

  // Callbacks for an order of which known is matched, and of other orders among them: its own
  // fills follow each other up to its cancel, which reports no less; all others, and its own
  // that run after its cancel, are fills that come late.
  predicate Proper(orderId: string, known: real, size: real, over: bool, calls: seq<Call>)
    decreases |calls|
  {
    calls == [] ||
    if calls[0].orderId != orderId || over
    then calls[0].update.FillUpdate? && calls[0].update.size > 0.0 && Proper(orderId, known, size, over, calls[1..])
    else match calls[0].update
         case FillUpdate(q, _, total) =>
           q > 0.0 && total == known + q && total <= size && Proper(orderId, total, size, false, calls[1..])
         case CancelUpdate(m) => known <= m <= size && Proper(orderId, m, size, true, calls[1..])
  }

  // What the exchange has reported of the order in the end.
  function OwnMatch(orderId: string, known: real, over: bool, calls: seq<Call>): real
    decreases |calls|
  {
    if calls == [] then known
    else if calls[0].orderId != orderId || over then OwnMatch(orderId, known, over, calls[1..])
    else match calls[0].update
         case FillUpdate(_, _, total) => OwnMatch(orderId, total, false, calls[1..])
         case CancelUpdate(m) => OwnMatch(orderId, m, true, calls[1..])
  }

  // The fills that come late.
  function LateFills(orderId: string, over: bool, calls: seq<Call>): seq<Update>
    decreases |calls|
  {
    if calls == [] then []
    else if calls[0].orderId != orderId || over then [calls[0].update] + LateFills(orderId, over, calls[1..])
    else LateFills(orderId, calls[0].update.CancelUpdate?, calls[1..])
  }

  lemma LateCall(b: Books, orderId: string, call: Call)
    requires call.update.FillUpdate?
    ensures var e := OnUpdate(b, call.orderId, call.update);
            && e.sold == b.sold + call.update.size && e.position == b.position - call.update.size
            && (call.orderId != orderId ==> Known(e, orderId) == Known(b, orderId))
  {
  }

  lemma OwnCall(b: Books, orderId: string, known: real, u: Update)
    requires Known(b, orderId) == known
    requires if u.FillUpdate? then u.total == known + u.size && u.size > 0.0 else known <= u.matched
    ensures var e, m := OnUpdate(b, orderId, u), if u.FillUpdate? then u.total else u.matched;
            && e.sold == b.sold + (m - known) && e.position == b.position - (m - known)
            && (u.FillUpdate? ==> Known(e, orderId) == m)
  {
  }

  /** However its callbacks mix with late ones, the books gain what the exchange reported of
      the order and the late shares on top. */
  lemma {:induction false} LateIsOnTop(b: Books, orderId: string, known: real, size: real, over: bool,
                                             calls: seq<Call>)
    requires Proper(orderId, known, size, over, calls) && known <= size && (!over ==> Known(b, orderId) == known)
    ensures var e, late := AfterCalls(b, calls), LateFills(orderId, over, calls);
            && e.sold == b.sold + (OwnMatch(orderId, known, over, calls) - known) + Shares(late)
            && e.position == b.position - (OwnMatch(orderId, known, over, calls) - known) - Shares(late)
            && known <= OwnMatch(orderId, known, over, calls) <= size
            && Shares(late) >= 0.0 && (Shares(late) == 0.0 <==> late == [])
    decreases |calls|
  {
    if calls != [] {
      var call := calls[0];
      var e := OnUpdate(b, call.orderId, call.update);
      if call.orderId != orderId || over {
        LateCall(b, orderId, call);
        var rest := LateFills(orderId, over, calls[1..]);
        assert ([call.update] + rest)[1..] == rest;
        hide OnUpdate, Known;
        LateIsOnTop(e, orderId, known, size, over, calls[1..]);
      } else {
        OwnCall(b, orderId, known, call.update);
        hide OnUpdate, Known, Shares;
        var m := if call.update.FillUpdate? then call.update.total else call.update.matched;
        LateIsOnTop(e, orderId, m, size, call.update.CancelUpdate?, calls[1..]);
      }
    }
  }

  predicate LateOnly(calls: seq<Call>) {
    forall k :: 0 <= k < |calls| ==> calls[k].update.FillUpdate? && calls[k].update.size > 0.0
  }

  lemma {:induction false} LateOnlyAdds(b: Books, calls: seq<Call>)
    requires LateOnly(calls)
    ensures var e, q := AfterCalls(b, calls), Shares(UpdatesOf(calls));
            e.sold == b.sold + q && e.position == b.position - q && q >= 0.0 && (q == 0.0 <==> calls == [])
    decreases |calls|
  {
    if calls != [] {
      assert UpdatesOf(calls)[1..] == UpdatesOf(calls[1..]);
      LateOnlyAdds(OnUpdate(b, calls[0].orderId, calls[0].update), calls[1..]);
    }
  }

  lemma {:induction false} AfterLastCall(b: Books, calls: seq<Call>, last: Call)
    ensures AfterCalls(b, calls + [last]) == OnUpdate(AfterCalls(b, calls), last.orderId, last.update)
    decreases |calls|
  {
    if calls == [] {
      assert ([] + [last])[1..] == [];
    } else {
      assert (calls + [last])[1..] == calls[1..] + [last];
      hide OnUpdate;
      AfterLastCall(OnUpdate(b, calls[0].orderId, calls[0].update), calls[1..], last);
    }
  }

  // The k-th callback ends the wait: a cancel, a position gone, or an order filled to its size.
  predicate Ends(b: Books, calls: seq<Call>, k: nat)
    requires k < |calls|
  {
    var sizes, call := AfterCalls(b, calls[..k]).sizes, calls[k];
    || call.update.CancelUpdate?
    || AfterCalls(b, calls[..k + 1]).position <= 0.0
    || (call.orderId in sizes && call.update.total >= sizes[call.orderId])
  }

  /** A wait is over exactly when one of the callbacks so far has ended it. */
  lemma {:induction false} WokenExactly(b: Books, calls: seq<Call>)
    requires !b.done
    ensures AfterCalls(b, calls).done <==> exists k :: 0 <= k < |calls| && Ends(b, calls, k)
    decreases |calls|
  {
    if calls != [] {
      var n := |calls| - 1;
      var front := calls[..n];
      WokenExactly(b, front);
      assert calls == front + [calls[n]] && calls[..n + 1] == calls;
      AfterLastCall(b, front, calls[n]);
      WokenByLast(AfterCalls(b, front), calls[n].orderId, calls[n].update);
      forall k | 0 <= k < n ensures Ends(b, calls, k) <==> Ends(b, front, k) {
        assert front[..k] == calls[..k] && front[..k + 1] == calls[..k + 1];
      }
      hide AfterCalls, OnUpdate;
      assert AfterCalls(b, calls).done <==> AfterCalls(b, front).done || Ends(b, calls, n);
    }
  }

  lemma WokenByLast(b: Books, orderId: string, u: Update)
    ensures var e := OnUpdate(b, orderId, u);
            e.done <==> || b.done || u.CancelUpdate? || e.position <= 0.0
                        || (orderId in b.sizes && u.total >= b.sizes[orderId])
  {
  }

  /** Whatever the order in which fills come, the match known of their order is the largest
      total announced. */
  lemma {:induction false} KnownIsLargest(b: Books, orderId: string, us: seq<Update>)
    requires OnlyFills(us) && Known(b, orderId) >= 0.0
    ensures var known := Known(OnUpdates(b, orderId, us), orderId);
            && Known(b, orderId) <= known
            && (forall i :: 0 <= i < |us| ==> us[i].total <= known)
            && (known == Known(b, orderId) || exists i :: 0 <= i < |us| && us[i].total == known)
    decreases |us|
  {
    if us != [] {
      var e := OnUpdate(b, orderId, us[0]);
      assert Known(e, orderId) == Max(Known(b, orderId), us[0].total);
      KnownIsLargest(e, orderId, us[1..]);
      assert forall i :: 0 < i < |us| ==> us[i] == us[1..][i - 1];
    }
  }

  // ---- The balance-lag error ----

  // Whole cents, what is beyond them cut off.
  function Cents(x: real): real {
    if x >= 0.0 then (x * 100.0).Floor as real / 100.0 else -((-x * 100.0).Floor as real / 100.0)
  }

  predicate WholeCents(x: real) {
    (x * 100.0).Floor as real == x * 100.0
  }

  lemma CentsRoundDown(x: real)
    ensures WholeCents(Cents(x))
    ensures x >= 0.0 ==> x - 0.01 < Cents(x) <= x && Cents(x) >= 0.0
    ensures x < 0.0 ==> x <= Cents(x) < x + 0.01 && Cents(x) <= 0.0
    ensures WholeCents(x) ==> Cents(x) == x
  {
    var cents := if x >= 0.0 then (x * 100.0).Floor else -(-x * 100.0).Floor;
    WholeNumber(cents);
    assert Cents(x) == cents as real / 100.0;
    assert Cents(x) * 100.0 == cents as real;
    if WholeCents(x) {
      WholeNumber((x * 100.0).Floor);
    }
  }

  lemma WholeNumber(n: int)
    ensures (n as real).Floor == n && (-(n as real)).Floor == -n
  {
  }

  lemma NextCent(x: real, y: real)
    requires WholeCents(x) && WholeCents(y) && x < y
    ensures x <= y - 0.01
  {
    assert (x * 100.0).Floor + 1 <= (y * 100.0).Floor;
  }

  lemma CentAtLeast(x: real)
    requires WholeCents(x) && x > 0.0
    ensures x >= 0.01
  {
    WholeNumber(0);
    NextCent(0.0, x);
  }

  // "balance: B ... sum of matched orders: M", both in millionths of a share.
  function ParseSellable(balance: Option<nat>, matched: Option<nat>): Option<real> {
    if balance.None? then None
    else
      var taken := if matched.Some? then matched.value else 0;
      var actual := (balance.value as real - taken as real) / 1_000_000.0;
      if actual <= 0.0 then None else Some(Cents(actual))
  }
  /** What the error leaves to sell is the balance less the matched orders, in shares, cut to
      whole cents; nothing when no balance is given or nothing is left. */
  lemma SellableExactly(balance: Option<nat>, matched: Option<nat>, cents: real)
    requires WholeCents(cents) && cents >= 0.0
    ensures var left := (if balance.Some? then balance.value else 0) - (if matched.Some? then matched.value else 0);
            ParseSellable(balance, matched) == Some(cents) <==>
              balance.Some? && left > 0 && cents * 1_000_000.0 <= left as real < (cents + 0.01) * 1_000_000.0
  {
    if balance.Some? {
      var left := balance.value - if matched.Some? then matched.value else 0;
      var shares := left as real / 1_000_000.0;
      CentsRoundDown(shares);
      if shares > 0.0 && cents <= shares < cents + 0.01 {
        SameCents(cents, Cents(shares), shares);
      }
    }
  }

  lemma SameCents(x: real, y: real, z: real)
    requires WholeCents(x) && WholeCents(y) && x <= z < x + 0.01 && y <= z < y + 0.01
    ensures x == y
  {
    if x < y {
      NextCent(x, y);
    } else if y < x {
      NextCent(y, x);
    }
  }
}
