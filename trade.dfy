/**
 * The single-position trade controller: one slot that is either empty or
 * holds the BTC/USDT position opened by the last successful buy.
 *
 * Every handler is one atomic step. The quote outcome each handler would fetch
 * is an argument; the trade size and the take-profit percentage, which the
 * handlers read from the environment on every call, are arguments too.
 * Prices are exact reals, not IEEE doubles.
 */
module Trade {
  import opened PriceFeed

  /** Percentage move at or below which a position is always closed. */
  const StopLossPct: real := -2.0

  /** An open position, as `buy` records it. */
  datatype Position = Position(symbol: Pair, buyPrice: real, qty: real, invested: real)

  /** The module-level slot: no position, or one open position. */
  datatype Slot = NoPosition | Active(position: Position)

  datatype BuyResult =
    | Bought(position: Position)
    | AlreadyInPosition

  datatype SellResult =
    | Sold(profit: real, profitPct: real, position: Position)
    | Waiting(pct: real)
    | NoActivePosition

  /** A position as `buy` leaves it: its quantity times its entry price is the invested amount. */
  predicate Opened(p: Position)
  {
    p.symbol == BtcUsdt && p.buyPrice != 0.0 && p.qty * p.buyPrice == p.invested
  }

  /** The slot invariant: whatever is held was opened by `buy`. */
  predicate SlotOk(s: Slot)
  {
    s.Active? ==> Opened(s.position)
  }

  /** Percentage move from the entry price to the current price. */
  function MovePct(current: real, buyPrice: real): real
    requires buyPrice != 0.0
  {
    (current - buyPrice) / buyPrice * 100.0
  }

  /** The exit rule: take profit at or above the target, stop the loss at or below -2%. */
  predicate ShouldClose(pct: real, takeProfitPct: real)
  {
    pct >= takeProfitPct || pct <= StopLossPct
  }

  /** Value of the position at the current price minus what was invested. */
  function Profit(current: real, p: Position): real
  {
    current * p.qty - p.invested
  }

  /** The position `buy` opens for a trade size at a price. */
  function OpenAt(tradeSize: real, price: real): (p: Position)
    requires price != 0.0
    ensures Opened(p)
    ensures p.buyPrice == price && p.invested == tradeSize && p.qty == tradeSize / price
  {
    Position(BtcUsdt, price, tradeSize / price, tradeSize)
  }

  /** The `buy` handler as a function of the slot: the new slot and the reply. */
  function BuyStep(s: Slot, tradeSize: real, q: Quote): (Slot, BuyResult)
  {
    if s.Active? then (s, AlreadyInPosition)
    else
      var p := OpenAt(tradeSize, PriceOf(q, BtcUsdt));
      (Active(p), Bought(p))
  }

  /** The `sell` handler as a function of the slot: the new slot and the reply. */
  function SellStep(s: Slot, takeProfitPct: real, q: Quote): (Slot, SellResult)
    requires SlotOk(s)
  {
    if s.NoPosition? then (s, NoActivePosition)
    else
      var current := PriceOf(q, BtcUsdt);
      var pct := MovePct(current, s.position.buyPrice);
      if ShouldClose(pct, takeProfitPct) then (NoPosition, Sold(Profit(current, s.position), pct, s.position))
      else (s, Waiting(pct))
  }

  /** `buy` keeps the slot invariant. */
  lemma BuyKeepsSlotOk(s: Slot, tradeSize: real, q: Quote)
    requires SlotOk(s)
    ensures SlotOk(BuyStep(s, tradeSize, q).0)
  {
  }

  /** `sell` keeps the slot invariant. */
  lemma SellKeepsSlotOk(s: Slot, takeProfitPct: real, q: Quote)
    requires SlotOk(s)
    ensures SlotOk(SellStep(s, takeProfitPct, q).0)
  {
  }

  /** `buy` on an occupied slot refuses and changes nothing. */
  lemma BuyRefusesWhenOpen(s: Slot, tradeSize: real, q: Quote)
    requires s.Active?
    ensures BuyStep(s, tradeSize, q) == (s, AlreadyInPosition)
  {
  }

  /**
   * `buy` on an empty slot opens a BTC position at the current price with the
   * whole trade size invested, so quantity times entry price is the trade size.
   */
  lemma BuyOpensPosition(tradeSize: real, q: Quote)
    ensures var (s', r) := BuyStep(NoPosition, tradeSize, q);
      r.Bought? && s' == Active(r.position) &&
      r.position.buyPrice == PriceOf(q, BtcUsdt) &&
      r.position.invested == tradeSize &&
      r.position.qty * r.position.buyPrice == tradeSize
  {
  }

  /** `sell` on an empty slot refuses and changes nothing. */
  lemma SellRefusesWhenEmpty(takeProfitPct: real, q: Quote)
    ensures SellStep(NoPosition, takeProfitPct, q) == (NoPosition, NoActivePosition)
  {
  }

  /**
   * `sell` on an open position closes it exactly when the move reaches the
   * take-profit target or falls to the stop-loss, both bounds included;
   * otherwise it waits and keeps the position.
   */
  lemma SellClosesIffThreshold(s: Slot, takeProfitPct: real, q: Quote)
    requires SlotOk(s) && s.Active?
    ensures var pct := MovePct(PriceOf(q, BtcUsdt), s.position.buyPrice);
      var (s', r) := SellStep(s, takeProfitPct, q);
      (r.Sold? <==> (pct >= takeProfitPct || pct <= StopLossPct)) &&
      (r.Sold? ==> s' == NoPosition && r.position == s.position && r.profitPct == pct) &&
      (!r.Sold? ==> s' == s && r == Waiting(pct))
  {
  }

  /**
   * A quote whose move from the entry price is exactly the take-profit target,
   * or exactly the stop-loss, closes the position.
   */
  lemma BoundariesTrigger(s: Slot, takeProfitPct: real, q: Quote)
    requires SlotOk(s) && s.Active?
    requires var pct := MovePct(PriceOf(q, BtcUsdt), s.position.buyPrice);
      pct == takeProfitPct || pct == StopLossPct
    ensures SellStep(s, takeProfitPct, q).0 == NoPosition
    ensures SellStep(s, takeProfitPct, q).1.Sold?
  {
  }

  /**
   * A $40 position bought at 100 with a 4% target: a quote of 104 takes the
   * profit of $1.60, 98 stops the loss of $0.80, and 101 keeps waiting at 1%.
   */
  lemma ExitExamples()
    ensures var s := BuyStep(NoPosition, 40.0, Fetched(map["bitcoin" := 100.0])).0;
      SellStep(s, 4.0, Fetched(map["bitcoin" := 104.0])) == (NoPosition, Sold(1.6, 4.0, s.position)) &&
      SellStep(s, 4.0, Fetched(map["bitcoin" := 98.0])) == (NoPosition, Sold(-0.8, -2.0, s.position)) &&
      SellStep(s, 4.0, Fetched(map["bitcoin" := 101.0])) == (s, Waiting(1.0))
  {
    var s := BuyStep(NoPosition, 40.0, Fetched(map["bitcoin" := 100.0])).0;
    assert PriceOf(Fetched(map["bitcoin" := 100.0]), BtcUsdt) == 100.0;
    assert s.position == Position(BtcUsdt, 100.0, 0.4, 40.0);
    assert PriceOf(Fetched(map["bitcoin" := 104.0]), BtcUsdt) == 104.0;
    assert PriceOf(Fetched(map["bitcoin" := 98.0]), BtcUsdt) == 98.0;
    assert PriceOf(Fetched(map["bitcoin" := 101.0]), BtcUsdt) == 101.0;
  }

  /**
   * The realised profit of a position opened by `buy` is the invested amount
   * scaled by the percentage move.
   */
  lemma ProfitIsInvestedTimesMove(current: real, p: Position)
    requires Opened(p)
    ensures Profit(current, p) == p.invested * MovePct(current, p.buyPrice) / 100.0
  {
  }

  /** On a close, the profit reported is the invested amount times the move in percent. */
  lemma SoldProfitIdentity(s: Slot, takeProfitPct: real, q: Quote)
    requires SlotOk(s)
    ensures var r := SellStep(s, takeProfitPct, q).1;
      r.Sold? ==> r.profit == r.position.invested * r.profitPct / 100.0 &&
                  r.profit == PriceOf(q, BtcUsdt) * r.position.qty - r.position.invested
  {
    if s.Active? {
      ProfitIsInvestedTimesMove(PriceOf(q, BtcUsdt), s.position);
    }
  }

  /** A request to the controller, with the inputs the handler would read. */
  datatype Request =
    | BuyRequest(tradeSize: real, quote: Quote)
    | SellRequest(takeProfitPct: real, quote: Quote)
    | StatusRequest

  datatype Reply =
    | BuyReply(buy: BuyResult)
    | SellReply(sell: SellResult)
    | StatusReply(slot: Slot)

  /** One handler run on the slot. */
  function Handle(s: Slot, req: Request): (Slot, Reply)
    requires SlotOk(s)
  {
    match req
    case BuyRequest(size, q) => var (s', r) := BuyStep(s, size, q); (s', BuyReply(r))
    case SellRequest(tp, q) => var (s', r) := SellStep(s, tp, q); (s', SellReply(r))
    case StatusRequest => (s, StatusReply(s))
  }

  /** One handler keeps the slot invariant. */
  lemma HandleKeepsSlotOk(s: Slot, req: Request)
    requires SlotOk(s)
    ensures SlotOk(Handle(s, req).0)
  {
    match req
    case BuyRequest(size, q) => BuyKeepsSlotOk(s, size, q);
    case SellRequest(tp, q) => SellKeepsSlotOk(s, tp, q);
    case StatusRequest =>
  }

  /** The slot after running a sequence of requests one after the other. */
  function Replay(s: Slot, reqs: seq<Request>): (s': Slot)
    requires SlotOk(s)
    ensures SlotOk(s')
    decreases |reqs|
  {
    if reqs == [] then s
    else
      HandleKeepsSlotOk(s, reqs[0]);
      Replay(Handle(s, reqs[0]).0, reqs[1..])
  }

  /** The replies to a sequence of requests run one after the other. */
  function Replies(s: Slot, reqs: seq<Request>): (rs: seq<Reply>)
    requires SlotOk(s)
    ensures |rs| == |reqs|
    decreases |reqs|
  {
    if reqs == [] then []
    else
      HandleKeepsSlotOk(s, reqs[0]);
      [Handle(s, reqs[0]).1] + Replies(Handle(s, reqs[0]).0, reqs[1..])
  }

  function Held(s: Slot): int
  {
    if s.Active? then 1 else 0
  }

  /** Number of successful buys among the replies. */
  function Opens(rs: seq<Reply>): nat
  {
    if rs == [] then 0
    else (if rs[0].BuyReply? && rs[0].buy.Bought? then 1 else 0) + Opens(rs[1..])
  }

  /** Number of closing sells among the replies. */
  function Closes(rs: seq<Reply>): nat
  {
    if rs == [] then 0
    else (if rs[0].SellReply? && rs[0].sell.Sold? then 1 else 0) + Closes(rs[1..])
  }

  /**
   * Only `buy` fills the slot and only from empty; only `sell` empties it and
   * only from full. So over any run the successful buys minus the closing
   * sells is exactly the change in the number of positions held.
   */
  lemma {:induction false} OpensMinusCloses(s: Slot, reqs: seq<Request>)
    requires SlotOk(s)
    ensures Opens(Replies(s, reqs)) - Closes(Replies(s, reqs)) == Held(Replay(s, reqs)) - Held(s)
    decreases |reqs|
  {
    if reqs != [] {
      HandleKeepsSlotOk(s, reqs[0]);
      var (s1, r) := Handle(s, reqs[0]);
      OpensMinusCloses(s1, reqs[1..]);
      var rs := Replies(s, reqs);
      assert rs[0] == r && rs[1..] == Replies(s1, reqs[1..]);
    }
  }

  /**
   * At most one position at any time: starting from the empty slot, at every
   * point of any run the successful buys exceed the closing sells by zero or one.
   */
  lemma AtMostOnePosition(reqs: seq<Request>, k: nat)
    requires k <= |reqs|
    ensures var rs := Replies(NoPosition, reqs[..k]);
      0 <= Opens(rs) - Closes(rs) <= 1
  {
    OpensMinusCloses(NoPosition, reqs[..k]);
  }

  /** The controller object: the `activePosition` slot updated by its handlers. */
  class Trader {
    var activePosition: Slot

    ghost predicate Valid()
      reads this
    {
      SlotOk(activePosition)
    }

    /** At start-up no position is held. */
    constructor ()
      ensures Valid() && activePosition == NoPosition
    {
      activePosition := NoPosition;
    }

    /** Open a position of `tradeSize` at the quoted BTC price unless one is already open. */
    method Buy(tradeSize: real, q: Quote) returns (r: BuyResult)
      requires Valid()
      modifies this
      ensures Valid()
      ensures (activePosition, r) == BuyStep(old(activePosition), tradeSize, q)
      ensures old(activePosition).Active? ==> r == AlreadyInPosition && activePosition == old(activePosition)
      ensures old(activePosition).NoPosition? ==>
        r.Bought? && activePosition == Active(r.position) &&
        r.position.buyPrice == PriceOf(q, BtcUsdt) && r.position.invested == tradeSize &&
        r.position.qty == tradeSize / r.position.buyPrice
    {
      if activePosition.Active? {
        return AlreadyInPosition;
      }
      var price := PriceOf(q, BtcUsdt);
      var qty := tradeSize / price;
      var p := Position(BtcUsdt, price, qty, tradeSize);
      activePosition := Active(p);
      r := Bought(p);
    }

    /** Close the open position if the move hits take-profit or stop-loss. */
    method Sell(takeProfitPct: real, q: Quote) returns (r: SellResult)
      requires Valid()
      modifies this
      ensures Valid()
      ensures (activePosition, r) == SellStep(old(activePosition), takeProfitPct, q)
      ensures old(activePosition).NoPosition? ==> r == NoActivePosition && activePosition == NoPosition
      ensures r.Sold? ==>
        old(activePosition) == Active(r.position) && activePosition == NoPosition &&
        r.profit == r.position.invested * r.profitPct / 100.0
      ensures r.Waiting? ==> activePosition == old(activePosition)
    {
      if activePosition.NoPosition? {
        return NoActivePosition;
      }
      var currentPrice := PriceOf(q, BtcUsdt);
      var position := activePosition.position;
      var pct := MovePct(currentPrice, position.buyPrice);
      if ShouldClose(pct, takeProfitPct) {
        var profit := Profit(currentPrice, position);
        ProfitIsInvestedTimesMove(currentPrice, position);
        activePosition := NoPosition;
        return Sold(profit, pct, position);
      }
      r := Waiting(pct);
    }

    /** Report the slot without changing it. */
    method Status() returns (s: Slot)
      requires Valid()
      ensures s == activePosition && SlotOk(s)
    {
      s := activePosition;
    }
  }
}
