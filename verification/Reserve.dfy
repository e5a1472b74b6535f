/**
 * Why the frozen amount always suffices: whatever mix of executions an order goes through, the floored
 * notionals and fees add up to at most the notional and the rounded-up taker fee frozen at the start.
 */
module Reserve {
  import opened Protocol
  import opened Book
  import opened History
  import opened Scenario
  import opened Fixed

  /** Rates are fractions of SCALE; a maximal market quantity of 0 means no limit. */
  datatype Market = Market(base: string, quote: string, makerRate: U64, takerRate: U64,
                           minQty: U64, minNotional: U64, maxMarketQty: U64)

  /** The hypotheses the freeze relies on: two currencies, and a taker rate covering the maker rate. */
  predicate MarketOk(m: Market) {
    m.base != m.quote && m.makerRate <= m.takerRate <= SCALE
  }

  function Notional(price: Px, qty: Qty): nat {
    price * qty / SCALE
  }

  function FeeOn(amount: nat, rate: U64): nat {
    amount * rate / SCALE
  }

  function NeededFor(m: Market, price: Px, qty: Qty): nat {
    Notional(price, qty) + CeilDiv(Notional(price, qty) * m.takerRate, SCALE)
  }

  function RateIn(m: Market, t: Trade, id: Id): U64 {
    if t.takerOrderId == id then m.takerRate else m.makerRate
  }

  predicate TradeNames(e: Event, id: Id) {
    e.kind.TradeMade? && Names(e, id)
  }

  /** Quote notional settled so far for the order. */
  function NotionalSpent(ev: seq<Event>, id: Id): nat {
    if ev == [] then 0
    else
      var e := ev[|ev| - 1];
      NotionalSpent(ev[..|ev| - 1], id)
      + if TradeNames(e, id) then Notional(e.kind.trade.price, e.kind.trade.qty) else 0
  }

  /** Fees charged so far to the order, at the rate of its role in each trade. */
  function FeesSpent(m: Market, ev: seq<Event>, id: Id): nat {
    if ev == [] then 0
    else
      var e := ev[|ev| - 1];
      FeesSpent(m, ev[..|ev| - 1], id)
      + if TradeNames(e, id) then
          FeeOn(Notional(e.kind.trade.price, e.kind.trade.qty), RateIn(m, e.kind.trade, id))
        else 0
  }

  lemma MulUp(a: nat, b: nat, c: nat)
    requires b <= c
    ensures a * b <= a * c
  {
  }

  lemma FloorTimes(x: nat, d: nat)
    requires 0 < d
    ensures x / d * d <= x
  {
  }

  /** Flooring each part and adding up never exceeds flooring nothing. */
  lemma {:induction false} SpentBounds(m: Market, orders: Orders, ev: seq<Event>, id: Id, limit: Px)
    requires m.makerRate <= m.takerRate && LifeCycle(orders, ev)
    requires id in orders && orders[id].side.Bid? && LimitOf(orders[id]) == limit
    ensures NotionalSpent(ev, id) * SCALE <= limit * Traded(ev, id)
    ensures FeesSpent(m, ev, id) * SCALE <= NotionalSpent(ev, id) * m.takerRate
  {
    if ev != [] {
      var front := ev[..|ev| - 1];
      var e := ev[|ev| - 1];
      SpentBounds(m, orders, front, id, limit);
      if TradeNames(e, id) {
        var t := e.kind.trade;
        var a := Notional(t.price, t.qty);
        var rate := RateIn(m, t, id);
        PaidWithinLimit(orders, front, t, id);
        FloorTimes(t.price * t.qty, SCALE);
        MulUp(t.qty, t.price, limit);
        FloorTimes(a * rate, SCALE);
        MulUp(a, rate, m.takerRate);
        AddUp(NotionalSpent(front, id), a, SCALE, limit, Traded(front, id), t.qty);
        AddFees(FeesSpent(m, front, id), FeeOn(a, rate), NotionalSpent(front, id), a, m.takerRate);
      }
    }
  }

  lemma PaidWithinLimit(orders: Orders, before: seq<Event>, t: Trade, id: Id)
    requires TradeOk(orders, before, t) && (t.makerOrderId == id || t.takerOrderId == id)
    requires orders[id].side.Bid?
    ensures t.price <= LimitOf(orders[id])
  {
  }

  lemma AddUp(spent: nat, a: nat, s: nat, limit: nat, traded: nat, qty: nat)
    requires spent * s <= limit * traded && a * s <= qty * limit
    ensures (spent + a) * s <= limit * (traded + qty)
  {
  }

  lemma AddFees(fees: nat, f: nat, spent: nat, a: nat, rate: nat)
    requires fees * SCALE <= spent * rate && f * SCALE <= a * rate
    ensures (fees + f) * SCALE <= (spent + a) * rate
  {
  }

  lemma {:induction false} TradedAtMost(orders: Orders, ev: seq<Event>, id: Id)
    requires LifeCycle(orders, ev) && id in orders
    ensures Traded(ev, id) <= orders[id].qty
  {
    if ev != [] {
      TradedAtMost(orders, ev[..|ev| - 1], id);
    }
  }

  /** The freeze covers every admissible history of a buy order. */
  lemma ReserveSuffices(m: Market, orders: Orders, ev: seq<Event>, id: Id)
    requires m.makerRate <= m.takerRate && LifeCycle(orders, ev)
    requires id in orders && orders[id].side.Bid?
    ensures NotionalSpent(ev, id) + FeesSpent(m, ev, id) <= NeededFor(m, LimitOf(orders[id]), orders[id].qty)
  {
    var p := orders[id];
    var limit := LimitOf(p);
    SpentBounds(m, orders, ev, id, limit);
    TradedAtMost(orders, ev, id);
    Covers(NotionalSpent(ev, id), FeesSpent(m, ev, id), limit, Traded(ev, id), p.qty, m.takerRate);
  }

  lemma Covers(spent: nat, fees: nat, limit: nat, traded: nat, qty: nat, rate: nat)
    requires spent * SCALE <= limit * traded && traded <= qty
    requires fees * SCALE <= spent * rate
    ensures var whole := limit * qty / SCALE;
            spent <= whole && spent + fees <= whole + CeilDiv(whole * rate, SCALE)
  {
  }

  /** In particular for what the engine emits, however the order was filled. */
  lemma ReserveSufficesForRuns(m: Market, log: seq<Command>, id: Id)
    requires m.makerRate <= m.takerRate && id in Known(log) && Known(log)[id].side.Bid?
    ensures NotionalSpent(Emitted(log), id) + FeesSpent(m, Emitted(log), id)
         <= NeededFor(m, LimitOf(Known(log)[id]), Known(log)[id].qty)
  {
    RunHist(log);
    ReserveSuffices(m, Known(log), Emitted(log), id);
  }

  /** The freeze covers whatever the engine makes of any order. */
  ghost predicate FreezeSuffices(m: Market) {
    forall log: seq<Command>, id: Id | id in Known(log) && Known(log)[id].side.Bid? ::
      NotionalSpent(Emitted(log), id) + FeesSpent(m, Emitted(log), id)
      <= NeededFor(m, LimitOf(Known(log)[id]), Known(log)[id].qty)
  }

  /** Exactly when the maker rate is not above the taker rate: at a higher one a bid for one unit at price one,
      filled as a maker, owes more than was frozen. */
  lemma FreezeSufficesIff(m: Market)
    ensures FreezeSuffices(m) <==> m.makerRate <= m.takerRate
  {
    hide Known, Emitted;
    if m.makerRate <= m.takerRate {
      forall log: seq<Command>, id: Id | id in Known(log) && Known(log)[id].side.Bid? {
        ReserveSufficesForRuns(m, log, id);
      }
    } else {
      var bid, ask := Plain(1, 7, Bid, SCALE, SCALE), Plain(2, 8, Ask, SCALE, SCALE);
      TwoOrders(bid, ask);
      Overdrawn(m, bid, ask);
      assert 1 in Known([Place(bid), Place(ask)]);
    }
  }

  lemma Overdrawn(m: Market, bid: PlaceCommand, ask: PlaceCommand)
    requires m.takerRate < m.makerRate
    requires bid == Plain(1, 7, Bid, SCALE, SCALE) && ask == Plain(2, 8, Ask, SCALE, SCALE)
    ensures var ev := OpeningEvents(bid) + FillingEvents(bid, ask);
            NotionalSpent(ev, 1) + FeesSpent(m, ev, 1) > NeededFor(m, SCALE, SCALE)
  {
    var opening, filling := OpeningEvents(bid), FillingEvents(bid, ask);
    var ev := opening + filling;
    assert ev[..3] == opening + filling[..2] && ev[..3][..2] == opening + filling[..1] && ev[..3][..2][..1] == opening;
    assert opening[..0] == [];
    assert NotionalSpent(opening, 1) == 0 && FeesSpent(m, opening, 1) == 0;
    assert Notional(SCALE, SCALE) == SCALE;
    UnitFee(m.makerRate);
    UnitFee(m.takerRate);
    assert NotionalSpent(ev[..2], 1) == SCALE && FeesSpent(m, ev[..2], 1) == m.makerRate;
    assert NotionalSpent(ev[..3], 1) == SCALE && FeesSpent(m, ev[..3], 1) == m.makerRate;
  }

  lemma UnitFee(rate: U64)
    ensures SCALE * rate / SCALE == rate && SCALE * rate % SCALE == 0
  {
  }
}
