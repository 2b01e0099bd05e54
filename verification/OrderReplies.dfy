/** From the exchange's reply to a trade's profit: shares and money are read off the taking
    and making amounts, and nothing is lost on the way to the closing figure. */
module OrderReplies {
  import opened Prelude
  import BuyEntry
  import SellExit
  import SellAttempts

  datatype RawStatus = Matched | LiveOrder | OtherStatus

  datatype RawReply = RawReply(status: RawStatus, taking: real, making: real)

  datatype Status = Filled | Partial | Live | Failed

  datatype Result = Result(status: Status, filledSize: real, filledPrice: Option<real>)

  // A BUY takes shares and makes money; a SELL makes shares and takes money.
  function ParseResult(reply: Option<RawReply>, buy: bool, orderSize: real): Result {
    if reply.None? then Result(Failed, 0.0, None)
    else
      var RawReply(status, taking, making) := reply.value;
      match status
      case Matched =>
        var filled := if buy then taking else making;
        if filled <= 0.0 || taking <= 0.0 || making <= 0.0 then Result(Failed, 0.0, None)
        else Result(if filled < orderSize then Partial else Filled, filled,
                    Some(if buy then making / taking else taking / making))
      case LiveOrder => Result(Live, 0.0, None)
      case OtherStatus => Result(Failed, 0.0, None)
  }

  // What the reply says changed hands, when the order was accepted and matched.
  function Shares(reply: RawReply, buy: bool): real {
    if reply.status != Matched || reply.taking <= 0.0 || reply.making <= 0.0 then 0.0
    else if buy then reply.taking else reply.making
  }

  function Money(reply: RawReply, buy: bool): real {
    if reply.status != Matched || reply.taking <= 0.0 || reply.making <= 0.0 then 0.0
    else if buy then reply.making else reply.taking
  }

  /** The parsed fill at its execution price is the money in the reply, whatever the limit;
      an order is partial exactly when fewer shares than ordered were matched. */
  lemma ReplyIsExact(reply: RawReply, buy: bool, orderSize: real, limit: real)
    ensures var r := ParseResult(Some(reply), buy, orderSize);
            && r.filledSize == Shares(reply, buy)
            && r.filledSize * SellAttempts.ExecutionPrice(r.filledPrice, limit) == Money(reply, buy)
            && (r.status == Partial <==> 0.0 < Shares(reply, buy) < orderSize)
            && (r.status == Filled <==> 0.0 < Shares(reply, buy) && orderSize <= Shares(reply, buy))
            && (r.status == Live <==> reply.status == LiveOrder)
            && (r.filledPrice.Some? <==> 0.0 < Shares(reply, buy))
  {
  }

  /** A matched BUY gets the taken amount as shares for the made amount of money, a matched
      SELL the other way round; without both amounts the order counts as failed. */
  lemma SidesAreRead(taking: real, making: real, orderSize: real)
    ensures var buy, sell := ParseResult(Some(RawReply(Matched, taking, making)), true, orderSize),
                             ParseResult(Some(RawReply(Matched, taking, making)), false, orderSize);
            if taking > 0.0 && making > 0.0
            then && buy.filledSize == taking && buy.filledPrice.Some? && taking * buy.filledPrice.value == making
                 && sell.filledSize == making && sell.filledPrice.Some? && making * sell.filledPrice.value == taking
            else buy == sell == Result(Failed, 0.0, None)
  {
  }

  // One order of a trade: its side, size, limit price and reply.
  datatype Order = Order(buy: bool, size: real, limit: real, reply: RawReply)

  // The trade's books after an order's immediate fill.
  datatype Ledger = Ledger(holding: BuyEntry.Holding, books: SellExit.Books)

  function Account(l: Ledger, o: Order): Ledger {
    var r := ParseResult(Some(o.reply), o.buy, o.size);
    var price := SellAttempts.ExecutionPrice(r.filledPrice, o.limit);
    if r.filledSize <= 0.0 then l
    else if o.buy then l.(holding := BuyEntry.RecordBuyFill(l.holding, r.filledSize, price))
    else l.(books := SellExit.RecordSell(l.books, r.filledSize, price))
  }

  function AccountAll(l: Ledger, os: seq<Order>): Ledger
    decreases |os|
  {
    if os == [] then l else AccountAll(Account(l, os[0]), os[1..])
  }

  function Paid(os: seq<Order>): real {
    if os == [] then 0.0 else (if os[0].buy then Money(os[0].reply, true) else 0.0) + Paid(os[1..])
  }

  function Received(os: seq<Order>): real {
    if os == [] then 0.0 else (if os[0].buy then 0.0 else Money(os[0].reply, false)) + Received(os[1..])
  }

  // The closing figure, left open while one side has no money in it.
  function Pnl(l: Ledger): Option<real> {
    if l.holding.entryCost > 0.0 && l.books.revenue > 0.0 then Some(l.books.revenue - l.holding.entryCost) else None
  }

  lemma OneOrderIsExact(l: Ledger, o: Order)
    ensures var e := Account(l, o);
            && e.holding.entryCost == l.holding.entryCost + (if o.buy then Money(o.reply, true) else 0.0)
            && e.books.revenue == l.books.revenue + (if o.buy then 0.0 else Money(o.reply, false))
  {
  }

  /** Over any run of matched replies, entry cost is the money paid and exit revenue the
      money received, so the profit is received minus paid. */
  lemma {:induction false} MoneyIsExact(l: Ledger, os: seq<Order>)
    ensures var e := AccountAll(l, os);
            && e.holding.entryCost == l.holding.entryCost + Paid(os)
            && e.books.revenue == l.books.revenue + Received(os)
            && (Pnl(e).Some? <==> l.holding.entryCost + Paid(os) > 0.0 && l.books.revenue + Received(os) > 0.0)
            && (Pnl(e).Some? ==>
                  Pnl(e).value == (l.books.revenue + Received(os)) - (l.holding.entryCost + Paid(os)))
    decreases |os|
  {
    if os != [] {
      hide Account, Money;
      OneOrderIsExact(l, os[0]);
      MoneyIsExact(Account(l, os[0]), os[1..]);
    }
  }
}
