/**
 * The order book as two flat lists, best price first and then first come first served,
 * and what one command does to it.  This is the specification the engine is proved against.
 */
module Book {
  import opened Protocol

  /** `qty` is what the order asked for, `remaining` what is still open. */
  datatype Order = Order(id: Id, user: Id, price: Px, qty: Qty, remaining: Qty)

  datatype State = State(bids: seq<Order>, asks: seq<Order>, seen: set<Id>, lastTrade: nat, lastSeq: nat) {
    function On(side: Side): seq<Order> {
      if side.Bid? then bids else asks
    }

    function With(side: Side, os: seq<Order>): State {
      if side.Bid? then this.(bids := os) else this.(asks := os)
    }
  }

  const EMPTY := State([], [], {}, 0, 0)

  /** Resting on `side`, price `a` is served strictly before price `b`. */
  predicate Better(side: Side, a: Px, b: Px) {
    if side.Bid? then a > b else a < b
  }

  /** A taker with this limit accepts the maker's price. */
  predicate Crosses(taker: Side, makerPx: Px, limit: Px) {
    if taker.Bid? then makerPx <= limit else makerPx >= limit
  }

  predicate Sorted(side: Side, os: seq<Order>) {
    forall i, j :: 0 <= i < j < |os| ==> !Better(side, os[j].price, os[i].price)
  }

  predicate SelfTrade(p: PlaceCommand, maker: Order) {
    p.stp.CancelTaker? && maker.user == p.userId
  }

  // ---------- matching ----------

  /** One execution: the maker as it stood before it, and the quantity taken. */
  datatype Fill = Fill(maker: Order, qty: Qty)

  /** What a taker does to the opposite list: fills in order, what is left of the list and of the taker. */
  datatype Sweep = Sweep(fills: seq<Fill>, rest: seq<Order>, left: Qty, stopped: bool)

  function Match(p: PlaceCommand, limit: Px, os: seq<Order>, left: Qty): Sweep {
    if left == 0 || os == [] || !Crosses(p.side, os[0].price, limit) then
      Sweep([], os, left, false)
    else if SelfTrade(p, os[0]) then
      Sweep([], os, left, true)
    else if left < os[0].remaining then
      Sweep([Fill(os[0], left)], [os[0].(remaining := os[0].remaining - left)] + os[1..], 0, false)
    else
      var s := Match(p, limit, os[1..], left - os[0].remaining);
      s.(fills := [Fill(os[0], os[0].remaining)] + s.fills)
  }

  function TradeOf(p: PlaceCommand, f: Fill, tradeId: nat): Trade {
    Trade(tradeId, f.maker.id, p.orderId, f.maker.user, p.userId, p.side, f.maker.price, f.qty)
  }

  function MakerUpdate(p: PlaceCommand, f: Fill): OrderUpdate
    requires f.qty <= f.maker.remaining <= f.maker.qty
  {
    var remaining := f.maker.remaining - f.qty;
    OrderUpdate(f.maker.id, f.maker.user, p.side.Opposite(), Some(f.maker.price),
                if remaining == 0 then Filled else PartiallyFilled,
                f.maker.qty - remaining, f.maker.qty)
  }

  predicate FillsOk(fills: seq<Fill>) {
    forall f | f in fills :: f.qty <= f.maker.remaining <= f.maker.qty
  }

  function FillEvents(p: PlaceCommand, fills: seq<Fill>, lastTrade: nat, lastSeq: nat): (r: seq<Event>)
    requires FillsOk(fills)
    ensures |r| == 2 * |fills|
  {
    if fills == [] then [] else
      [Event(lastSeq + 1, TradeMade(TradeOf(p, fills[0], lastTrade + 1))),
       Event(lastSeq + 2, OrderChanged(MakerUpdate(p, fills[0])))]
      + FillEvents(p, fills[1..], lastTrade + 1, lastSeq + 2)
  }

  // ---------- placing ----------

  /** Liquidity a taker could take, up to its first own order when self trades cancel it. */
  function Fillable(p: PlaceCommand, limit: Px, os: seq<Order>): nat {
    if os == [] || !Crosses(p.side, os[0].price, limit) || SelfTrade(p, os[0]) then 0
    else os[0].remaining + Fillable(p, limit, os[1..])
  }

  predicate WouldCross(side: Side, limit: Px, os: seq<Order>) {
    os != [] && Crosses(side, os[0].price, limit)
  }

  /** The limit to execute with, or None when the order is refused.  The fill-or-kill sum is a
      64-bit accumulator that wraps around. */
  function Admit(p: PlaceCommand, opposite: seq<Order>): Option<Px> {
    if p.qty == 0 then None
    else if p.orderType.Limit? && (p.price.None? || p.price.value == 0) then None
    else if p.orderType.Market? && (p.price.Some? || p.postOnly) then None
    else
      var limit := LimitOf(p);
      if p.postOnly && WouldCross(p.side, limit, opposite) then None
      else if p.tif.Fok? && Fillable(p, limit, opposite) % U64_MODULUS < p.qty then None
      else Some(limit)
  }

  /** Behind every resting order at the same or a better price. */
  function Insert(side: Side, os: seq<Order>, o: Order): seq<Order> {
    if os == [] || Better(side, o.price, os[0].price) then [o] + os
    else [os[0]] + Insert(side, os[1..], o)
  }

  predicate Rests(p: PlaceCommand, sweep: Sweep) {
    !sweep.stopped && sweep.left > 0 && p.orderType.Limit? && p.tif.Gtc?
  }

  function TakerStatus(p: PlaceCommand, sweep: Sweep): OrderStatus {
    if sweep.stopped then Canceled
    else if sweep.left == 0 then Filled
    else if p.orderType.Limit? && p.tif.Gtc? then
      if sweep.left < p.qty then PartiallyFilled else Open
    else Canceled
  }

  datatype Outcome = Outcome(state: State, events: seq<Event>)

  function Refuse(s: State, p: PlaceCommand): Outcome {
    Outcome(s.(lastSeq := s.lastSeq + 1),
            [Event(s.lastSeq + 1,
                   OrderChanged(OrderUpdate(p.orderId, p.userId, p.side, p.price, Rejected, 0, p.qty)))])
  }

  function TakerUpdate(p: PlaceCommand, limit: Px, sweep: Sweep): OrderUpdate
    requires sweep.left <= p.qty
  {
    OrderUpdate(p.orderId, p.userId, p.side,
                if p.orderType.Limit? then Some(limit) else None,
                TakerStatus(p, sweep), p.qty - sweep.left, p.qty)
  }

  function TakerOrder(p: PlaceCommand, limit: Px, left: Qty): Order {
    Order(p.orderId, p.userId, limit, p.qty, left)
  }

  function AfterSweep(s: State, p: PlaceCommand, sweep: Sweep): State {
    s.With(p.side.Opposite(), sweep.rest)
     .(lastTrade := s.lastTrade + |sweep.fills|, lastSeq := s.lastSeq + 2 * |sweep.fills|)
  }

  function Conclude(s: State, p: PlaceCommand, limit: Px, sweep: Sweep): State {
    var s' := s.(lastSeq := s.lastSeq + 1);
    if Rests(p, sweep) then s'.With(p.side, Insert(p.side, s'.On(p.side), TakerOrder(p, limit, sweep.left)))
    else s'
  }

  function Execute(s: State, p: PlaceCommand, limit: Px): Outcome
    requires BookOk(s.On(p.side.Opposite()))
  {
    var sweep := Match(p, limit, s.On(p.side.Opposite()), p.qty);
    MatchBounds(p, limit, s.On(p.side.Opposite()), p.qty);
    var swept := AfterSweep(s, p, sweep);
    Outcome(Conclude(swept, p, limit, sweep),
            FillEvents(p, sweep.fills, s.lastTrade, s.lastSeq)
            + [Event(swept.lastSeq + 1, OrderChanged(TakerUpdate(p, limit, sweep)))])
  }

  function DoPlace(s: State, p: PlaceCommand): Outcome
    requires BookOk(s.On(p.side.Opposite()))
  {
    if p.orderId in s.seen then Outcome(s, [])
    else
      var s' := s.(seen := s.seen + {p.orderId});
      match Admit(p, s'.On(p.side.Opposite()))
      case None => Refuse(s', p)
      case Some(limit) => Execute(s', p, limit)
  }

  // ---------- canceling ----------

  function Find(os: seq<Order>, id: Id): Option<Order> {
    if os == [] then None
    else if os[0].id == id then Some(os[0])
    else Find(os[1..], id)
  }

  function Remove(os: seq<Order>, id: Id): seq<Order> {
    if os == [] then []
    else if os[0].id == id then os[1..]
    else [os[0]] + Remove(os[1..], id)
  }

  function CancelUpdate(side: Side, o: Order): OrderUpdate
    requires o.remaining <= o.qty
  {
    OrderUpdate(o.id, o.user, side, Some(o.price), Canceled, o.qty - o.remaining, o.qty)
  }

  function CancelOn(s: State, side: Side, o: Order): Outcome
    requires o.remaining <= o.qty
  {
    Outcome(s.With(side, Remove(s.On(side), o.id)).(lastSeq := s.lastSeq + 1),
            [Event(s.lastSeq + 1, OrderChanged(CancelUpdate(side, o)))])
  }

  function DoCancel(s: State, id: Id): Outcome
    requires BookOk(s.bids) && BookOk(s.asks)
  {
    FindOk(s.bids, id);
    FindOk(s.asks, id);
    match Find(s.bids, id)
    case Some(o) => CancelOn(s, Bid, o)
    case None =>
      match Find(s.asks, id)
      case Some(o) => CancelOn(s, Ask, o)
      case None => Outcome(s, [])
  }

  function Step(s: State, cmd: Command): Outcome
    requires BookOk(s.bids) && BookOk(s.asks)
  {
    match cmd
    case Place(p) => DoPlace(s, p)
    case Cancel(c) => DoCancel(s, c.orderId)
  }

  // ---------- well-formed books ----------

  /** Every resting order still has something open, and no more than it asked for. */
  predicate BookOk(os: seq<Order>) {
    forall o | o in os :: 0 < o.remaining <= o.qty
  }

  predicate Distinct(os: seq<Order>) {
    forall i, j :: 0 <= i < j < |os| ==> os[i].id != os[j].id
  }

  predicate Uncrossed(bids: seq<Order>, asks: seq<Order>) {
    bids != [] && asks != [] ==> bids[0].price < asks[0].price
  }

  ghost predicate Good(s: State) {
    && BookOk(s.bids) && BookOk(s.asks)
    && Sorted(Bid, s.bids) && Sorted(Ask, s.asks)
    && Distinct(s.bids + s.asks)
    && (forall o | o in s.bids + s.asks :: o.id in s.seen)
    && Uncrossed(s.bids, s.asks)
  }

  lemma FindOk(os: seq<Order>, id: Id)
    ensures match Find(os, id)
            case Some(o) => o in os && o.id == id
            case None => forall o | o in os :: o.id != id
  {
    if os != [] && os[0].id != id {
      FindOk(os[1..], id);
      assert os == [os[0]] + os[1..];
    }
  }

  lemma {:induction false} MatchBounds(p: PlaceCommand, limit: Px, os: seq<Order>, left: Qty)
    requires BookOk(os)
    ensures var s := Match(p, limit, os, left);
            s.left <= left && FillsOk(s.fills) && BookOk(s.rest)
            && (forall f | f in s.fills :: f.maker in os && 0 < f.qty)
  {
    if left == 0 || os == [] || !Crosses(p.side, os[0].price, limit) || SelfTrade(p, os[0]) {
    } else if left < os[0].remaining {
      assert BookOk(os[1..]);
    } else {
      MatchBounds(p, limit, os[1..], left - os[0].remaining);
    }
  }
}
