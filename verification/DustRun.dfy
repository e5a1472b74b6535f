/**
 * A run that gets clearing stuck for good: on any market that takes orders of less than one whole unit, two
 * funded users trade a quantity at the smallest price, and neither proceeds nor fees are worth a unit.
 */
module DustRun {
  import opened Protocol
  import opened Scenario
  import opened Ledger
  import opened Reserve
  import opened OrderService
  import opened Settlement
  import opened Trading
  import opened Deal
  import opened Stalls
  import Fixed

  /** Small orders are allowed, and the smallest notional, bought at price one, fits in 64 bits. */
  predicate TakesSmallOrders(m: Market) {
    MarketOk(m) && m.minQty < SCALE && (m.minNotional + 1) * SCALE < U64_MODULUS
  }

  /** What the buyer's order is worth. */
  function Worth(m: Market): U64
    requires TakesSmallOrders(m)
  {
    if m.minNotional == 0 then 1 else m.minNotional
  }

  function Little(m: Market): Qty {
    if m.minQty == 0 then 1 else m.minQty
  }

  function Buy(m: Market): PlaceCommand
    requires TakesSmallOrders(m)
  {
    Plain(1, 1, Bid, 1, Worth(m) * SCALE)
  }

  function Sell(m: Market): PlaceCommand {
    Plain(2, 2, Ask, 1, Little(m))
  }

  function DustScript(m: Market): seq<Action>
    requires TakesSmallOrders(m)
  {
    Script(m, Buy(m), Sell(m), 2 * Worth(m), Little(m))
  }

  lemma Prices(m: Market)
    requires TakesSmallOrders(m)
    ensures var paid := Initial(m, Bid, Some(1), Worth(m) * SCALE);
            paid <= I64_MAX && Ready(m, Buy(m), Sell(m), 2 * Worth(m), Little(m), paid, Little(m))
  {
    var n := Worth(m);
    assert Notional(1, n * SCALE) == n;
    Fixed.MulDivIsFloor(1, n * SCALE, SCALE);
    Fixed.RateAtMostOne(n, m.takerRate);
    hide Fixed.MulDiv, Fixed.MulDivCeil, Fixed.CeilDiv;
    SignedSmall(n + Fixed.CeilDiv(n * m.takerRate, SCALE));
    SignedSmall(Little(m));
  }

  lemma Smallest(m: Market, t: Trade)
    requires t.price == 1 && t.qty < SCALE
    ensures Amount(t) * m.takerRate == 0
  {
  }

  lemma DustReached(m: Market)
    requires TakesSmallOrders(m)
    ensures Ordinary(m, DustScript(m))
    ensures AtDust(Exec(m, DustScript(m)), m) && Exec(m, DustScript(m)).done == 1
  {
    hide Exec, Ready, Ordinary, Postable;
    Prices(m);
    FittingIsOrdinary(m, DustScript(m));
    TradeIsNext(m, Buy(m), Sell(m), 2 * Worth(m), Little(m), Initial(m, Bid, Some(1), Worth(m) * SCALE), Little(m));
    PostableIff(m, DealTrade(Buy(m), Sell(m)));
    Smallest(m, DealTrade(Buy(m), Sell(m)));
  }

  /** Clearing gets stuck, and whatever anybody does afterwards it stays where it is. */
  lemma ClearingStuckForGood(m: Market, more: seq<Action>)
    requires TakesSmallOrders(m)
    ensures Stalled(Exec(m, DustScript(m) + more), m) && Exec(m, DustScript(m) + more).done == 1
  {
    hide Exec, DustScript, AtDust;
    DustReached(m);
    StuckForGood(m, DustScript(m), more);
  }
}
