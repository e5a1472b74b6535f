/**
 * Orders too large for a 64-bit column: the freeze is computed modulo 2^64 and can come out as next to nothing.  The
 * order is accepted, and the trade it leads to cannot be settled for lack of money.
 */
module WrappedFreeze {
  import opened Protocol
  import opened History
  import opened Scenario
  import opened Ledger
  import LedgerSound
  import opened Database
  import opened Reserve
  import opened Clearing
  import opened OrderService
  import opened Settlement
  import opened Trading
  import opened Steps
  import opened Deal
  import Fixed

  /** A taker fee between nothing and everything, and minimums that are not themselves huge. */
  predicate ChargesTaker(m: Market) {
    MarketOk(m) && 0 < m.takerRate < SCALE && m.minQty <= I64_MAX / 2 && m.minNotional <= I64_MAX
  }

  /** A bid at price one. */
  function HugeBid(qty: Qty): PlaceCommand {
    Plain(1, 1, Bid, SCALE, qty)
  }

  /** At least one whole unit, so that the fee is not nothing. */
  function Stock(m: Market): Qty {
    if m.minQty < SCALE then SCALE else m.minQty
  }

  function SmallAsk(m: Market): PlaceCommand {
    Plain(2, 2, Ask, SCALE, Stock(m))
  }

  // ---------- a huge order for next to nothing ----------

  lemma AtPriceOne(m: Market, qty: Qty)
    ensures Notional(SCALE, qty) == qty && NeededFor(m, SCALE, qty) == qty + Fixed.CeilDiv(qty * m.takerRate, SCALE)
  {
  }

  lemma OneMore(m: Market, qty: Qty)
    requires MarketOk(m) && 0 < qty
    ensures NeededFor(m, SCALE, qty) <= NeededFor(m, SCALE, qty - 1) + 2
  {
    hide NeededFor, Fixed.CeilDiv;
    AtPriceOne(m, qty);
    AtPriceOne(m, qty - 1);
    LastUnit(qty, m.takerRate);
    CeilStep((qty - 1) * m.takerRate, m.takerRate);
  }

  lemma LastUnit(qty: nat, rate: nat)
    requires 0 < qty
    ensures qty * rate == (qty - 1) * rate + rate
  {
  }

  lemma CeilStep(x: nat, rate: nat)
    requires rate <= SCALE
    ensures Fixed.CeilDiv(x + rate, SCALE) <= Fixed.CeilDiv(x, SCALE) + 1
  {
  }

  /** The freeze grows by at most two with each unit of quantity, so it hits one of the two values above 2^64. */
  lemma {:induction false} JustWraps(m: Market, most: Qty) returns (qty: Qty)
    requires MarketOk(m) && NeededFor(m, SCALE, most) > U64_MODULUS
    ensures U64_MODULUS < NeededFor(m, SCALE, qty) <= U64_MODULUS + 2
    decreases most
  {
    hide NeededFor;
    if NeededFor(m, SCALE, most) <= U64_MODULUS + 2 {
      qty := most;
    } else {
      AtZero(m);
      OneMore(m, most);
      qty := JustWraps(m, most - 1);
    }
  }

  lemma AtZero(m: Market)
    ensures NeededFor(m, SCALE, 0) == 0
  {
  }

  lemma LargestWraps(m: Market)
    requires 0 < m.takerRate
    ensures NeededFor(m, SCALE, 0xFFFF_FFFF_FFFF_FFFF) > U64_MODULUS
  {
    AtPriceOne(m, 0xFFFF_FFFF_FFFF_FFFF);
    MulUp(0xFFFF_FFFF_FFFF_FFFF, 1, m.takerRate);
  }

  /** The order service asks for one or two units for it. */
  lemma HugeBidAccepted(m: Market) returns (qty: Qty, reserved: I64)
    requires ChargesTaker(m)
    ensures qty > I64_MAX && Initial(m, Bid, Some(SCALE), qty) > U64_MODULUS
    ensures CheckPlace(m, HugeBid(qty)) == Accepted(reserved) && 0 < reserved <= 2
  {
    LargestWraps(m);
    qty := JustWraps(m, 0xFFFF_FFFF_FFFF_FFFF);
    AtPriceOne(m, qty);
    Fixed.MulDivIsFloor(SCALE, qty, SCALE);
    Fixed.RateAtMostOne(qty, m.takerRate);
    hide Fixed.MulDiv, Fixed.MulDivCeil, Fixed.CeilDiv;
    reserved := NeededFor(m, SCALE, qty) - U64_MODULUS;
    assert Fixed.MulDiv(SCALE, qty, SCALE) == Fixed.Ok(qty);
  }

  /** For instance, at a taker rate of 0.1%, about 184 billion units at price one for a freeze of one. */
  lemma FreezeOfOne(m: Market)
    requires MarketOk(m) && m.takerRate == 100_000 && m.minQty <= SCALE && m.minNotional <= SCALE
    ensures CheckPlace(m, HugeBid(18_428_315_757_951_600_016)) == Accepted(1)
  {
    var qty: Qty := 18_428_315_757_951_600_016;
    AtPriceOne(m, qty);
    Fixed.MulDivIsFloor(SCALE, qty, SCALE);
    Fixed.RateAtMostOne(qty, m.takerRate);
    assert Fixed.CeilDiv(qty * 100_000, SCALE) == 18_428_315_757_951_601;
    hide Fixed.MulDiv, Fixed.MulDivCeil;
  }

  // ---------- a trade that cannot be paid ----------

  /** The seller has the stock, the buyer's frozen balance is too small: the posting is refused at the payment. */
  lemma NotPaid(db: Rows, m: Market, t: Trade)
    requires MarketOk(m) && t.side.Ask? && Buyer(t) != Seller(t) && Postable(m, t)
    requires Paid(m, t) <= I64_MAX && 0 < t.qty <= I64_MAX
    requires SidesMatch(db.orders, t) && TradeSettled(t.tradeId) !in db.ledger.journals
    requires t.qty <= Balance(db.ledger, UserAccount(Seller(t), m.base, Frozen)) <= I64_MAX
    requires Balance(db.ledger, UserAccount(Seller(t), m.quote, Available)) == 0
    requires 0 <= Balance(db.ledger, UserAccount(Buyer(t), m.quote, Frozen)) < Paid(m, t)
    ensures Settle(db, m, t) == (db, Stuck(Posting(Insufficient(UserAccount(Buyer(t), m.quote, Frozen)))))
  {
    hide QuoteOf, SettleMoves, LedgerSound.TrulyBalanced, CheckPasses, BuyFee, SellFee, Amount, PostMoves;
    MovesArePlain(m, t);
    var ms := PlainMoves(m, t);
    FiveBalanced(m, t, Paid(m, t), Received(m, t), Fees(m, t));
    BalancedPasses(ms);
    var t0 := db.ledger.(journals := db.ledger.journals + {TradeSettled(t.tradeId)});
    ThirdRefused(t0, TradeSettled(t.tradeId), ms, UserAccount(Buyer(t), m.quote, Frozen));
  }

  /** Two moves go through, the third finds too little. */
  lemma ThirdRefused(t: Tables, key: JournalKey, ms: seq<Move>, a: Account)
    requires |ms| >= 3 && ms[2].account == a && ms[0].account != ms[1].account
    requires ms[0].account != a && ms[1].account != a
    requires I64_MIN < ms[0].delta && ms[0].delta != 0 && 0 <= Balance(t, ms[0].account) + ms[0].delta <= I64_MAX
    requires I64_MIN < ms[1].delta && ms[1].delta != 0 && 0 <= Balance(t, ms[1].account) + ms[1].delta <= I64_MAX
    requires I64_MIN <= Balance(t, a) + ms[2].delta < 0
    ensures PostMoves(t, key, ms) == Ledger.Err(Insufficient(a))
  {
    AbsSign(ms[0].delta);
    AbsSign(ms[1].delta);
    hide Abs;
    var t1 := PostMove(t, key, ms[0]).value;
    var t2 := PostMove(t1, key, ms[1]).value;
    assert PostMove(t2, key, ms[2]) == Ledger.Err(Insufficient(a));
    assert ms[1..][0] == ms[1] && ms[1..][1..] == ms[2..] && ms[2..][0] == ms[2];
    assert PostMoves(t2, key, ms[2..]) == Ledger.Err(Insufficient(a));
    assert PostMoves(t1, key, ms[1..]) == Ledger.Err(Insufficient(a));
  }

  function ShortScript(m: Market, qty: Qty): seq<Action> {
    Script(m, HugeBid(qty), SmallAsk(m), 2, Stock(m))
  }

  /** What clearing meets next: a trade with proceeds and fees, and not enough frozen to pay for it. */
  ghost predicate ShortOfMoney(w: World, m: Market) {
    && w.done < |Emitted(w.log)| && Emitted(w.log)[w.done].kind.TradeMade?
    && var t := Emitted(w.log)[w.done].kind.trade;
    && Postable(m, t)
    && Settle(w.db, m, t) == (w.db, Stuck(Posting(Insufficient(UserAccount(Buyer(t), m.quote, Frozen)))))
  }

  lemma SmallTrade(m: Market, qty: Qty)
    requires ChargesTaker(m)
    ensures var t := DealTrade(HugeBid(qty), SmallAsk(m));
            Postable(m, t) && 2 < Paid(m, t) <= I64_MAX && 0 < Received(m, t) <= I64_MAX
  {
    var t := DealTrade(HugeBid(qty), SmallAsk(m));
    AtPriceOne(m, Stock(m));
    MulUp(Stock(m), 1, m.takerRate);
    PostableIff(m, t);
    FeesSmall(m, t);
    hide FeeOn;
  }

  /** On every market with such a fee a run leads there. */
  lemma WrappedFreezeRunsShort(m: Market) returns (qty: Qty)
    requires ChargesTaker(m)
    ensures ShortOfMoney(Exec(m, ShortScript(m, qty)), m) && !Ordinary(m, ShortScript(m, qty))
  {
    var reserved: I64;
    qty, reserved := HugeBidAccepted(m);
    var bid, ask := HugeBid(qty), SmallAsk(m);
    SignedSmall(Stock(m));
    TradeIsNext(m, bid, ask, 2, Stock(m), reserved, Stock(m));
    SmallTrade(m, qty);
    hide Exec, CheckPlace, Initial, Postable, Emitted, Ordinary, Settle, Healthy;
    var acts := ShortScript(m, qty);
    DealtShort(Exec(m, acts), m, bid, ask, reserved);
    if Ordinary(m, acts) {
      NextTradeExact(m, acts);
    }
  }

  lemma DealtShort(w: World, m: Market, bid: PlaceCommand, ask: PlaceCommand, reserved: I64)
    requires MarketOk(m) && bid.side.Bid? && ask.side.Ask? && bid.userId != ask.userId && bid.orderId != ask.orderId
    requires 0 < ask.qty <= I64_MAX && Dealt(w, m, bid, ask, reserved, ask.qty)
    requires var t := DealTrade(bid, ask);
             Postable(m, t) && 0 <= reserved < Paid(m, t) <= I64_MAX
    ensures var t := DealTrade(bid, ask);
            Settle(w.db, m, t) == (w.db, Stuck(Posting(Insufficient(UserAccount(Buyer(t), m.quote, Frozen)))))
  {
    hide Healthy, Paid, Postable, Settle;
    NotPaid(w.db, m, DealTrade(bid, ask));
  }
}
