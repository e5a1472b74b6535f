/**
 * The order service's money side: validate and price the freeze, insert the row and freeze in one
 * transaction, and give everything back when the command could not be dispatched.
 */
module OrderService {
  import opened Protocol
  import opened Ledger
  import opened Database
  import opened Reserve
  import Fixed
  import Clearing

  datatype Refusal =
    | InvalidQty | InvalidPrice | MarketTakesNoPrice | MarketBuyUnsupported | MarketQtyTooBig
    | QtyTooSmall | AmountOverflow | NotionalTooSmall | FeeOverflow
    | InsufficientBalance | Internal

  datatype Check = Accepted(reserved: I64) | Refused(why: Refusal)

  /** The field checks and the amount to freeze: uint64 arithmetic, converted to int64 at the end. */
  function CheckPlace(m: Market, p: PlaceCommand): Check {
    if p.qty == 0 then Refused(InvalidQty)
    else if p.orderType.Limit? && (p.price.None? || p.price.value == 0) then Refused(InvalidPrice)
    else if p.orderType.Market? && p.price.Some? then Refused(MarketTakesNoPrice)
    else if p.orderType.Market? && p.side.Bid? then Refused(MarketBuyUnsupported)
    else if p.orderType.Market? && m.maxMarketQty > 0 && p.qty > m.maxMarketQty then Refused(MarketQtyTooBig)
    else if p.qty < m.minQty then Refused(QtyTooSmall)
    else if p.side.Ask? then Accepted(Signed(p.qty))
    else
      match Fixed.MulDiv(p.price.value, p.qty, SCALE)
      case Err(_) => Refused(AmountOverflow)
      case Ok(amount) =>
        if amount < m.minNotional then Refused(NotionalTooSmall)
        else
          match Fixed.MulDivCeil(amount, m.takerRate, SCALE)
          case Err(_) => Refused(FeeOverflow)
          case Ok(fee) => Accepted(Signed(amount as int + fee))
  }

  /** What an order must freeze, in unbounded arithmetic. */
  function Initial(m: Market, side: Side, price: Option<Px>, qty: Qty): nat {
    if side.Ask? then qty
    else if price.Some? then NeededFor(m, price.value, qty)
    else 0
  }

  lemma SignedFits(x: nat)
    ensures Signed(x) == x <==> x <= I64_MAX
  {
  }

  /** The computed freeze is the intended one, read as a signed 64-bit number: the same exactly when it fits. */
  lemma CheckedReserve(m: Market, p: PlaceCommand)
    requires MarketOk(m) && CheckPlace(m, p).Accepted?
    ensures CheckPlace(m, p).reserved == Signed(Initial(m, p.side, p.price, p.qty))
    ensures CheckPlace(m, p).reserved == Initial(m, p.side, p.price, p.qty)
            <==> Initial(m, p.side, p.price, p.qty) <= I64_MAX
    ensures p.side.Bid? ==> p.orderType.Limit? && p.price.Some? && p.price.value == LimitOf(p)
  {
    hide Fixed.MulDiv, Fixed.MulDivCeil, Fixed.CeilDiv, Signed;
    SignedFits(Initial(m, p.side, p.price, p.qty));
    if p.side.Bid? {
      var price, qty := p.price.value, p.qty;
      Fixed.MulDivIsFloor(price, qty, SCALE);
      assert Fixed.MulDiv(price, qty, SCALE) == Fixed.Ok(Notional(price, qty));
      hide Notional;
      Fixed.RateAtMostOne(Notional(price, qty), m.takerRate);
    }
  }

  /** A positive quantity, with a positive price for limit orders; market orders sell without one, up to a limit. */
  predicate Shaped(m: Market, p: PlaceCommand) {
    && 0 < p.qty
    && if p.orderType == OrderType.Limit then p.price.Some? && 0 < p.price.value
       else p.price.None? && p.side == Ask && (m.maxMarketQty == 0 || p.qty <= m.maxMarketQty)
  }

  /** What a bid is worth at its price. */
  function Worth(p: PlaceCommand): nat {
    if p.price.Some? then p.price.value * p.qty / SCALE else 0
  }

  /** Accepted orders respect the market's limits, and nothing else is accepted. */
  lemma AcceptedIff(m: Market, p: PlaceCommand)
    requires MarketOk(m)
    ensures CheckPlace(m, p).Accepted? <==>
            Shaped(m, p) && m.minQty <= p.qty && (p.side == Bid ==> m.minNotional <= Worth(p) < U64_MODULUS)
  {
    hide Fixed.MulDiv, Fixed.MulDivCeil, Fixed.CeilDiv;
    if p.price.Some? {
      Fixed.MulDivIsFloor(p.price.value, p.qty, SCALE);
      if Worth(p) < U64_MODULUS {
        Fixed.RateAtMostOne(Worth(p), m.takerRate);
      }
    }
  }

  /** Each refusal for its own reason, in the order in which they are looked at. */
  lemma RefusedBecause(m: Market, p: PlaceCommand)
    requires MarketOk(m)
    ensures var r := CheckPlace(m, p);
            var market := 0 < p.qty && p.orderType == OrderType.Market;
            && (r == Refused(InvalidQty) <==> p.qty == 0)
            && (r == Refused(InvalidPrice) <==>
                  0 < p.qty && p.orderType == OrderType.Limit && (p.price == None || p.price == Some(0)))
            && (r == Refused(MarketTakesNoPrice) <==> market && p.price != None)
            && (r == Refused(MarketBuyUnsupported) <==> market && p.price == None && p.side == Bid)
            && (r == Refused(MarketQtyTooBig) <==>
                  market && p.price == None && p.side == Ask && 0 < m.maxMarketQty < p.qty)
            && (r == Refused(QtyTooSmall) <==> Shaped(m, p) && p.qty < m.minQty)
            && (r == Refused(AmountOverflow) <==>
                  Shaped(m, p) && m.minQty <= p.qty && p.side == Bid && U64_MODULUS <= Worth(p))
            && (r == Refused(NotionalTooSmall) <==>
                  Shaped(m, p) && m.minQty <= p.qty && p.side == Bid
                  && Worth(p) < m.minNotional && Worth(p) < U64_MODULUS)
            && r != Refused(FeeOverflow)
  {
    hide Fixed.MulDiv, Fixed.MulDivCeil, Fixed.CeilDiv;
    if p.price.Some? {
      Fixed.MulDivIsFloor(p.price.value, p.qty, SCALE);
      if Worth(p) < U64_MODULUS {
        Fixed.RateAtMostOne(Worth(p), m.takerRate);
      }
    }
  }

  function FreezeMoves(m: Market, user: Id, side: Side, reserved: I64): seq<Move> {
    var c := Clearing.HeldCurrency(m, side);
    [Move(Clearing.UserAccount(user, c, Available), Clearing.Negated(reserved)),
     Move(Clearing.UserAccount(user, c, Frozen), reserved)]
  }

  function RowFor(p: PlaceCommand, reserved: int): OrderRow {
    OrderRow(p.userId, p.side, p.price, p.qty, reserved)
  }

  datatype Placement = Placed | NotPlaced(why: Refusal)

  /** The price is written as an unsigned number, which a signed column refuses in its upper half; the quantity
      is converted first and keeps its bits. */
  predicate PriceFits(p: PlaceCommand) {
    p.price.Some? ==> p.price.value <= I64_MAX
  }

  ghost function Freeze(db: Rows, m: Market, id: Id, p: PlaceCommand, reserved: I64): (Rows, Placement) {
    if !PriceFits(p) then (db, NotPlaced(Internal))
    else
      match Posted(db.ledger, OrderFreeze(id), FreezeMoves(m, p.userId, p.side, reserved))
      case Ok(ledger) => (db.(ledger := ledger, orders := db.orders[id := RowFor(p, reserved)]), Placed)
      case Err(Insufficient(_)) => (db, NotPlaced(InsufficientBalance))
      case Err(_) => (db, NotPlaced(Internal))
  }

  ghost function Refund(db: Rows, m: Market, id: Id, p: PlaceCommand, reserved: I64): Rows {
    if reserved > 0 then
      db.(ledger := Committed(db.ledger, Posted(db.ledger, OrderUnfreeze(id),
                                                Clearing.ReleaseMoves(m, RowFor(p, reserved)))))
    else db
  }

  class Service {
    const db: Database
    const market: Market

    constructor (db: Database, market: Market)
      ensures this.db == db && this.market == market
    {
      this.db, this.market := db, market;
    }

    /** One transaction: the order row and the freeze, or neither.  The id is the row's new identity. */
    method Place(id: Id, p: PlaceCommand, reserved: I64) returns (result: Placement)
      requires id !in db.orders
      modifies db
      ensures (db.View(), result) == Freeze(old(db.View()), market, id, p, reserved)
    {
      if !PriceFits(p) {
        return NotPlaced(Internal);
      }
      var accounts, journals, entries, orders := db.accounts, db.journals, db.entries, db.orders;
      db.orders := db.orders[id := RowFor(p, reserved)];
      var status := db.PostTx(OrderFreeze(id), FreezeMoves(market, p.userId, p.side, reserved));
      if status.Failed? {
        db.accounts, db.journals, db.entries, db.orders := accounts, journals, entries, orders;
        result := NotPlaced(if status.error.Insufficient? then InsufficientBalance else Internal);
      } else {
        result := Placed;
      }
    }

    /** Compensation for a command that was not dispatched. */
    method RejectAndUnfreeze(id: Id, p: PlaceCommand, reserved: I64)
      modifies db
      ensures db.View() == Refund(old(db.View()), market, id, p, reserved)
    {
      if reserved > 0 {
        var _ := db.Post(OrderUnfreeze(id), Clearing.ReleaseMoves(market, RowFor(p, reserved)));
      }
    }
  }
}
