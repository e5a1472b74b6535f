/**
 * The command and event vocabulary of one trading pair, as every service sees it.
 * Prices and quantities are 64-bit fixed-point integers scaled by SCALE.
 */
module Protocol {

  const SCALE := 100_000_000
  const U64_MODULUS: int := 0x1_0000_0000_0000_0000

  type U64 = x: int | 0 <= x < 0x1_0000_0000_0000_0000
  type Px = U64
  type Qty = U64

  /** Order, user and trade numbers: only ever compared or counted up by one. */
  type Id = nat

  const PX_MAX: Px := 0xFFFF_FFFF_FFFF_FFFF

  datatype Option<+T> = None | Some(value: T)

  datatype Side = Bid | Ask {
    function Opposite(): Side {
      if Bid? then Ask else Bid
    }
  }

  datatype OrderType = Limit | Market
  datatype TimeInForce = Gtc | Ioc | Fok
  datatype StpMode = NoStp | CancelTaker
  datatype OrderStatus = Open | PartiallyFilled | Filled | Canceled | Rejected

  datatype PlaceCommand = PlaceCommand(
    orderId: Id, userId: Id, side: Side, orderType: OrderType, tif: TimeInForce,
    stp: StpMode, postOnly: bool, price: Option<Px>, qty: Qty)

  datatype CancelCommand = CancelCommand(orderId: Id, userId: Id)

  datatype Command = Place(place: PlaceCommand) | Cancel(cancel: CancelCommand)

  /** `side` is the taker's side. */
  datatype Trade = Trade(
    tradeId: nat, makerOrderId: Id, takerOrderId: Id, makerUserId: Id, takerUserId: Id,
    side: Side, price: Px, qty: Qty)

  datatype OrderUpdate = OrderUpdate(
    orderId: Id, userId: Id, side: Side, price: Option<Px>, status: OrderStatus,
    filledQty: Qty, qty: Qty)

  datatype EventKind = TradeMade(trade: Trade) | OrderChanged(update: OrderUpdate)

  datatype Event = Event(seqNo: nat, kind: EventKind)

  predicate Terminal(status: OrderStatus) {
    status.Filled? || status.Canceled? || status.Rejected?
  }

  /** The price a limit order may not be executed beyond; a market order accepts every price. */
  function LimitOf(p: PlaceCommand): Px {
    match p.orderType
    case Limit => if p.price.Some? then p.price.value else 0
    case Market => if p.side.Bid? then PX_MAX else 0
  }

  function Min(a: int, b: int): int {
    if a < b then a else b
  }
}
