/**
 * What the event history of a whole run looks like: the life cycle of every order, consecutive
 * numbering, and the agreement between the history and the book.
 */
module History {
  import opened Protocol
  import opened Book
  import opened Matching
  import opened EngineState

  /** The accepted place command of every order id seen so far. */
  type Orders = map<Id, PlaceCommand>

  function QtyFor(e: Event, id: Id): nat {
    if e.kind.TradeMade? && (e.kind.trade.makerOrderId == id || e.kind.trade.takerOrderId == id)
    then e.kind.trade.qty else 0
  }

  predicate EndsAt(e: Event, id: Id) {
    e.kind.OrderChanged? && e.kind.update.orderId == id && Terminal(e.kind.update.status)
  }

  predicate Names(e: Event, id: Id) {
    match e.kind
    case TradeMade(t) => t.makerOrderId == id || t.takerOrderId == id
    case OrderChanged(u) => u.orderId == id
  }

  /** Quantity of all trades naming the order. */
  function Traded(ev: seq<Event>, id: Id): nat {
    if ev == [] then 0 else Traded(ev[..|ev| - 1], id) + QtyFor(ev[|ev| - 1], id)
  }

  /** The order has had a terminal update. */
  predicate Ended(ev: seq<Event>, id: Id) {
    ev != [] && (EndsAt(ev[|ev| - 1], id) || Ended(ev[..|ev| - 1], id))
  }

  function TradeCount(ev: seq<Event>): nat {
    if ev == [] then 0 else TradeCount(ev[..|ev| - 1]) + if ev[|ev| - 1].kind.TradeMade? then 1 else 0
  }

  /** Nobody pays more, or gets less, than the price named in the command. */
  predicate PriceKept(p: PlaceCommand, price: Px) {
    p.price.Some? ==> if p.side.Bid? then price <= p.price.value else p.price.value <= price
  }

  /** The order may take part in a trade of this price and quantity after `before`. */
  predicate Party(orders: Orders, before: seq<Event>, id: Id, user: Id, side: Side, price: Px, qty: Qty) {
    && id in orders && orders[id].userId == user && orders[id].side == side
    && PriceKept(orders[id], price) && Crosses(side, price, LimitOf(orders[id]))
    && !Ended(before, id)
    && Traded(before, id) + qty <= orders[id].qty
  }

  predicate TradeOk(orders: Orders, before: seq<Event>, t: Trade) {
    && 0 < t.qty && t.makerOrderId != t.takerOrderId
    && t.tradeId == TradeCount(before) + 1
    && Party(orders, before, t.takerOrderId, t.takerUserId, t.side, t.price, t.qty)
    && Party(orders, before, t.makerOrderId, t.makerUserId, t.side.Opposite(), t.price, t.qty)
    && orders[t.makerOrderId].orderType.Limit? && orders[t.makerOrderId].price == Some(t.price)
    && orders[t.makerOrderId].tif.Gtc?
    && !orders[t.takerOrderId].postOnly
    && (orders[t.takerOrderId].stp.CancelTaker? ==> t.makerUserId != t.takerUserId)
  }

  predicate StatusFits(status: OrderStatus, filled: Qty, qty: Qty) {
    match status
    case Open => filled == 0 < qty
    case PartiallyFilled => 0 < filled < qty
    case Filled => 0 < filled == qty
    case Canceled => filled < qty
    case Rejected => filled == 0
  }

  predicate UpdateOk(orders: Orders, before: seq<Event>, u: OrderUpdate) {
    && u.orderId in orders
    && var p := orders[u.orderId];
    && u.userId == p.userId && u.side == p.side && u.price == p.price && u.qty == p.qty
    && !Ended(before, u.orderId)
    && u.filledQty == Traded(before, u.orderId)
    && StatusFits(u.status, u.filledQty, u.qty)
    && (!Terminal(u.status) ==> p.orderType.Limit? && p.price.Some? && p.tif.Gtc?)
  }

  predicate EventOk(orders: Orders, before: seq<Event>, e: Event) {
    && e.seqNo == |before| + 1
    && match e.kind
       case TradeMade(t) => TradeOk(orders, before, t)
       case OrderChanged(u) => UpdateOk(orders, before, u)
  }

  /** Every event is admissible after the events before it. */
  predicate LifeCycle(orders: Orders, ev: seq<Event>) {
    ev == [] || (LifeCycle(orders, ev[..|ev| - 1]) && EventOk(orders, ev[..|ev| - 1], ev[|ev| - 1]))
  }

  /** A resting order agrees with its command and with the history. */
  predicate Live(orders: Orders, ev: seq<Event>, side: Side, o: Order) {
    && o.id in orders
    && var p := orders[o.id];
    && p.orderType.Limit? && p.price == Some(o.price) && p.tif.Gtc?
    && p.side == side && p.userId == o.user && p.qty == o.qty
    && !Ended(ev, o.id)
    && Traded(ev, o.id) + o.remaining == o.qty
  }

  ghost predicate Resting(s: State, id: Id) {
    exists o :: o in s.bids + s.asks && o.id == id
  }

  ghost predicate Books(orders: Orders, s: State, ev: seq<Event>) {
    && (forall o | o in s.bids :: Live(orders, ev, Bid, o))
    && (forall o | o in s.asks :: Live(orders, ev, Ask, o))
  }

  /** Every known order rests or has ended, except possibly the one being matched; others have no past. */
  ghost predicate Fates(orders: Orders, s: State, ev: seq<Event>, active: Option<Id>) {
    && (forall id | id in orders :: Ended(ev, id) || Resting(s, id) || active == Some(id))
    && (forall id | id !in orders :: !Ended(ev, id) && Traded(ev, id) == 0)
  }

  ghost predicate Hist(orders: Orders, s: State, ev: seq<Event>, active: Option<Id>) {
    && |ev| == s.lastSeq && TradeCount(ev) == s.lastTrade && s.seen == orders.Keys
    && LifeCycle(orders, ev) && Books(orders, s, ev) && Fates(orders, s, ev, active)
  }

  lemma Append(ev: seq<Event>, e: Event)
    ensures (ev + [e])[..|ev|] == ev
    ensures TradeCount(ev + [e]) == TradeCount(ev) + if e.kind.TradeMade? then 1 else 0
    ensures forall id :: Traded(ev + [e], id) == Traded(ev, id) + QtyFor(e, id)
    ensures forall id :: Ended(ev + [e], id) <==> EndsAt(e, id) || Ended(ev, id)
    ensures forall orders :: LifeCycle(orders, ev + [e]) <==> LifeCycle(orders, ev) && EventOk(orders, ev, e)
  {
  }

  // ---------- one execution ----------

  /** The taker while it is being matched. */
  ghost predicate Taking(orders: Orders, s: State, ev: seq<Event>, p: PlaceCommand, left: Qty) {
    && p.orderId in orders && orders[p.orderId] == p
    && !Ended(ev, p.orderId) && left <= p.qty && Traded(ev, p.orderId) == p.qty - left
    && forall o | o in s.bids + s.asks :: o.id != p.orderId
  }

  /** Nobody but the named maker is affected by an execution's two events. */
  lemma FillAppends(p: PlaceCommand, f: Fill, ev: seq<Event>, lastTrade: nat, lastSeq: nat)
    requires f.qty <= f.maker.remaining <= f.maker.qty && f.maker.id != p.orderId
    ensures var ev' := ev + FillEvents(p, [f], lastTrade, lastSeq);
            && TradeCount(ev') == TradeCount(ev) + 1
            && (forall id :: Traded(ev', id) ==
                  Traded(ev, id) + if id == f.maker.id || id == p.orderId then f.qty else 0)
            && (forall id :: Ended(ev', id) <==>
                  Ended(ev, id) || (id == f.maker.id && f.qty == f.maker.remaining))
  {
    var t := Event(lastSeq + 1, TradeMade(TradeOf(p, f, lastTrade + 1)));
    var u := Event(lastSeq + 2, OrderChanged(MakerUpdate(p, f)));
    assert FillEvents(p, [f][1..], lastTrade + 1, lastSeq + 2) == [];
    assert ev + FillEvents(p, [f], lastTrade, lastSeq) == (ev + [t]) + [u];
    Append(ev, t);
    Append(ev + [t], u);
  }

  /** The head is within the limit, not the taker's own where that matters, and the taker may take at all. */
  predicate MayTake(p: PlaceCommand, maker: Order) {
    && Crosses(p.side, maker.price, LimitOf(p)) && !SelfTrade(p, maker) && !p.postOnly
    && (p.orderType.Market? ==> p.price.None?)
  }

  lemma FillLifeCycle(orders: Orders, s: State, ev: seq<Event>, p: PlaceCommand, left: Qty, q: Qty)
    requires Good(s) && Hist(orders, s, ev, Some(p.orderId)) && Taking(orders, s, ev, p, left)
    requires var os := s.On(p.side.Opposite());
             os != [] && 0 < q == Min(left, os[0].remaining) && MayTake(p, os[0])
    ensures var f := Fill(s.On(p.side.Opposite())[0], q);
            LifeCycle(orders, ev + FillEvents(p, [f], s.lastTrade, s.lastSeq))
  {
    hide Traded, Ended, TradeCount, LifeCycle;
    var maker := s.On(p.side.Opposite())[0];
    var f := Fill(maker, q);
    assert Live(orders, ev, p.side.Opposite(), maker);
    var t := Event(s.lastSeq + 1, TradeMade(TradeOf(p, f, s.lastTrade + 1)));
    var u := Event(s.lastSeq + 2, OrderChanged(MakerUpdate(p, f)));
    assert FillEvents(p, [f][1..], s.lastTrade + 1, s.lastSeq + 2) == [];
    assert ev + FillEvents(p, [f], s.lastTrade, s.lastSeq) == (ev + [t]) + [u];
    assert maker in s.bids + s.asks;
    assert Crosses(p.side.Opposite(), maker.price, maker.price);
    assert EventOk(orders, ev, t);
    Append(ev, t);
    assert EventOk(orders, ev + [t], u);
    Append(ev + [t], u);
  }

  ghost predicate SideLive(orders: Orders, ev: seq<Event>, side: Side, os: seq<Order>) {
    forall o | o in os :: Live(orders, ev, side, o)
  }

  /** What an execution changes in anyone's past. */
  ghost predicate FillEffect(ev: seq<Event>, ev': seq<Event>, taker: Id, f: Fill) {
    && (forall id :: Traded(ev', id) == Traded(ev, id) + if id == f.maker.id || id == taker then f.qty else 0)
    && (forall id :: Ended(ev', id) <==> Ended(ev, id) || (id == f.maker.id && f.qty == f.maker.remaining))
  }

  lemma OthersLive(orders: Orders, ev: seq<Event>, ev': seq<Event>, taker: Id, f: Fill, side: Side, os: seq<Order>)
    requires SideLive(orders, ev, side, os) && FillEffect(ev, ev', taker, f)
    requires forall o | o in os :: o.id != taker && o.id != f.maker.id
    ensures SideLive(orders, ev', side, os)
  {
  }

  lemma FrontLive(orders: Orders, ev: seq<Event>, ev': seq<Event>, taker: Id, side: Side, os: seq<Order>, q: Qty)
    requires SideLive(orders, ev, side, os) && os != [] && 0 < q <= os[0].remaining && Distinct(os)
    requires FillEffect(ev, ev', taker, Fill(os[0], q)) && forall o | o in os :: o.id != taker
    ensures SideLive(orders, ev', side, TakenFront(os, q))
  {
    OthersLive(orders, ev, ev', taker, Fill(os[0], q), side, os[1..]);
    assert Live(orders, ev, side, os[0]);
  }

  lemma FillBooks(orders: Orders, s: State, ev: seq<Event>, p: PlaceCommand, left: Qty, q: Qty)
    requires Good(s) && Books(orders, s, ev) && Taking(orders, s, ev, p, left)
    requires var os := s.On(p.side.Opposite());
             os != [] && 0 < q <= os[0].remaining
    ensures var os := s.On(p.side.Opposite());
            Books(orders, MidSweep(s, p, 1, TakenFront(os, q)),
                  ev + FillEvents(p, [Fill(os[0], q)], s.lastTrade, s.lastSeq))
  {
    var opp := p.side.Opposite();
    var os := s.On(opp);
    var f := Fill(os[0], q);
    assert os[0] in s.bids + s.asks;
    FillAppends(p, f, ev, s.lastTrade, s.lastSeq);
    var ev' := ev + FillEvents(p, [f], s.lastTrade, s.lastSeq);
    GoodBySides(s, opp);
    hide Good, FillEvents, Live, Traded, Ended;
    assert FillEffect(ev, ev', p.orderId, f);
    assert forall o | o in s.On(p.side) + os :: o in s.bids + s.asks;
    OthersLive(orders, ev, ev', p.orderId, f, p.side, s.On(p.side));
    FrontLive(orders, ev, ev', p.orderId, opp, os, q);
  }

  lemma FillFates(orders: Orders, s: State, ev: seq<Event>, p: PlaceCommand, q: Qty)
    requires Fates(orders, s, ev, Some(p.orderId)) && Books(orders, s, ev)
    requires p.orderId in orders && forall o | o in s.bids + s.asks :: o.id != p.orderId
    requires var os := s.On(p.side.Opposite());
             os != [] && 0 < q <= os[0].remaining <= os[0].qty
    ensures var os := s.On(p.side.Opposite());
            Fates(orders, MidSweep(s, p, 1, TakenFront(os, q)),
                  ev + FillEvents(p, [Fill(os[0], q)], s.lastTrade, s.lastSeq), Some(p.orderId))
  {
    var os := s.On(p.side.Opposite());
    var f := Fill(os[0], q);
    assert os[0] in s.bids + s.asks;
    FillAppends(p, f, ev, s.lastTrade, s.lastSeq);
    var ev' := ev + FillEvents(p, [f], s.lastTrade, s.lastSeq);
    var s' := MidSweep(s, p, 1, TakenFront(os, q));
    hide FillEvents;
    assert Live(orders, ev, p.side.Opposite(), os[0]);
    forall id | id in orders
      ensures Ended(ev', id) || Resting(s', id) || p.orderId == id
    {
      if !Ended(ev', id) && id != p.orderId {
        var o :| o in s.bids + s.asks && o.id == id;
        StillResting(s, p, q, o);
      }
    }
  }

  lemma StillResting(s: State, p: PlaceCommand, q: Qty, o: Order)
    requires var os := s.On(p.side.Opposite());
             os != [] && 0 < q <= os[0].remaining
             && o in s.bids + s.asks && (q < os[0].remaining || o.id != os[0].id)
    ensures Resting(MidSweep(s, p, 1, TakenFront(s.On(p.side.Opposite()), q)), o.id)
  {
  }

  lemma FillTaking(orders: Orders, s: State, ev: seq<Event>, p: PlaceCommand, left: Qty, q: Qty)
    requires Taking(orders, s, ev, p, left) && BookOk(s.On(p.side.Opposite()))
    requires var os := s.On(p.side.Opposite());
             os != [] && 0 < q <= os[0].remaining && q <= left
    ensures var os := s.On(p.side.Opposite());
            Taking(orders, MidSweep(s, p, 1, TakenFront(os, q)),
                   ev + FillEvents(p, [Fill(os[0], q)], s.lastTrade, s.lastSeq), p, left - q)
  {
    var os := s.On(p.side.Opposite());
    assert os[0] in s.bids + s.asks;
    FillAppends(p, Fill(os[0], q), ev, s.lastTrade, s.lastSeq);
    var s' := MidSweep(s, p, 1, TakenFront(os, q));
    forall o | o in s'.bids + s'.asks
      ensures o.id != p.orderId
    {
      assert o in s.bids + s.asks || o.id == os[0].id;
    }
  }

  lemma FillHist(orders: Orders, s: State, ev: seq<Event>, p: PlaceCommand, left: Qty, q: Qty)
    requires Good(s) && Hist(orders, s, ev, Some(p.orderId)) && Taking(orders, s, ev, p, left)
    requires var os := s.On(p.side.Opposite());
             os != [] && 0 < q == Min(left, os[0].remaining) && MayTake(p, os[0])
    ensures var os := s.On(p.side.Opposite());
            var s' := MidSweep(s, p, 1, TakenFront(os, q));
            var ev' := ev + FillEvents(p, [Fill(os[0], q)], s.lastTrade, s.lastSeq);
            Good(s') && Hist(orders, s', ev', Some(p.orderId)) && Taking(orders, s', ev', p, left - q)
  {
    var os := s.On(p.side.Opposite());
    FillLifeCycle(orders, s, ev, p, left, q);
    FillBooks(orders, s, ev, p, left, q);
    FillFates(orders, s, ev, p, q);
    FillTaking(orders, s, ev, p, left, q);
    assert os[0] in s.bids + s.asks;
    FillAppends(p, Fill(os[0], q), ev, s.lastTrade, s.lastSeq);
    TakenFrontGood(s, p.side.Opposite(), q);
    assert Good(MidSweep(s, p, 1, TakenFront(os, q)));
  }

  // ---------- the whole sweep ----------

  /** After the rest of the sweep from here, the invariant holds again. */
  ghost predicate SweepsWell(orders: Orders, s: State, ev: seq<Event>, p: PlaceCommand, left: Qty) {
    var sweep := Match(p, LimitOf(p), s.On(p.side.Opposite()), left);
    FillsOk(sweep.fills) &&
    var s' := MidSweep(s, p, |sweep.fills|, sweep.rest);
    var ev' := ev + FillEvents(p, sweep.fills, s.lastTrade, s.lastSeq);
    Good(s') && Hist(orders, s', ev', Some(p.orderId)) && Taking(orders, s', ev', p, sweep.left)
  }

  /** What admission leaves open: a post-only taker meets nothing it crosses, a market order names no price. */
  predicate Eligible(p: PlaceCommand, os: seq<Order>) {
    && (p.orderType.Market? ==> p.price.None?)
    && (p.postOnly && os != [] ==> !Crosses(p.side, os[0].price, LimitOf(p)))
  }

  lemma {:induction false} SweepHist(orders: Orders, s: State, ev: seq<Event>, p: PlaceCommand, left: Qty)
    requires Good(s) && Hist(orders, s, ev, Some(p.orderId)) && Taking(orders, s, ev, p, left)
    requires Eligible(p, s.On(p.side.Opposite()))
    ensures SweepsWell(orders, s, ev, p, left)
    decreases left
  {
    hide Good, Hist, Taking, FillEvents;
    var limit := LimitOf(p);
    var os := s.On(p.side.Opposite());
    if left == 0 || os == [] || !Crosses(p.side, os[0].price, limit) || SelfTrade(p, os[0]) {
      SweepStops(orders, s, ev, p, left);
    } else {
      assert 0 < os[0].remaining <= os[0].qty by {
        GoodFront(s, p.side.Opposite());
      }
      var q: Qty := Min(left, os[0].remaining);
      FillHist(orders, s, ev, p, left, q);
      var s1 := MidSweep(s, p, 1, TakenFront(os, q));
      var ev1 := ev + FillEvents(p, [Fill(os[0], q)], s.lastTrade, s.lastSeq);
      SweepHist(orders, s1, ev1, p, left - q);
      SweepGoesOn(orders, s, ev, p, left, q);
    }
  }

  lemma GoodFront(s: State, side: Side)
    requires Good(s) && s.On(side) != []
    ensures 0 < s.On(side)[0].remaining <= s.On(side)[0].qty
  {
  }

  lemma SweepStops(orders: Orders, s: State, ev: seq<Event>, p: PlaceCommand, left: Qty)
    requires Good(s) && Hist(orders, s, ev, Some(p.orderId)) && Taking(orders, s, ev, p, left)
    requires Match(p, LimitOf(p), s.On(p.side.Opposite()), left).fills == []
    requires Match(p, LimitOf(p), s.On(p.side.Opposite()), left).rest == s.On(p.side.Opposite())
    requires Match(p, LimitOf(p), s.On(p.side.Opposite()), left).left == left
    ensures SweepsWell(orders, s, ev, p, left)
  {
    assert MidSweep(s, p, 0, s.On(p.side.Opposite())) == s;
    assert FillEvents(p, [], s.lastTrade, s.lastSeq) == [];
    assert ev + [] == ev;
  }

  lemma SweepGoesOn(orders: Orders, s: State, ev: seq<Event>, p: PlaceCommand, left: Qty, q: Qty)
    requires var os := s.On(p.side.Opposite());
             && os != [] && 0 < q == Min(left, os[0].remaining) && os[0].remaining <= os[0].qty
             && Crosses(p.side, os[0].price, LimitOf(p)) && !SelfTrade(p, os[0])
             && SweepsWell(orders, MidSweep(s, p, 1, TakenFront(os, q)),
                           ev + FillEvents(p, [Fill(os[0], q)], s.lastTrade, s.lastSeq), p, left - q)
    ensures SweepsWell(orders, s, ev, p, left)
  {
    hide Good, Hist, Taking, FillEvents, Match, MidSweep, TakenFront;
    var limit := LimitOf(p);
    var os := s.On(p.side.Opposite());
    var f := Fill(os[0], q);
    var sweep := Match(p, limit, os, left);
    var rest := Match(p, limit, TakenFront(os, q), left - q);
    MatchStep(p, limit, os, left, q);
    MidSweepJoin(s, p, TakenFront(os, q), |rest.fills|, rest.rest);
    FillEventsCons(p, f, rest.fills, s.lastTrade, s.lastSeq);
    assert (ev + FillEvents(p, [f], s.lastTrade, s.lastSeq)) + FillEvents(p, rest.fills, s.lastTrade + 1, s.lastSeq + 2)
        == ev + FillEvents(p, sweep.fills, s.lastTrade, s.lastSeq);
  }

  lemma MatchStep(p: PlaceCommand, limit: Px, os: seq<Order>, left: Qty, q: Qty)
    requires os != [] && 0 < left && q == Min(left, os[0].remaining)
    requires Crosses(p.side, os[0].price, limit) && !SelfTrade(p, os[0])
    ensures var t := Match(p, limit, TakenFront(os, q), left - q);
            Match(p, limit, os, left) == Sweep([Fill(os[0], q)] + t.fills, t.rest, t.left, t.stopped)
  {
  }

  lemma FillEventsCons(p: PlaceCommand, f: Fill, fills: seq<Fill>, lastTrade: nat, lastSeq: nat)
    requires FillsOk([f]) && FillsOk(fills)
    ensures FillsOk([f] + fills)
    ensures FillEvents(p, [f] + fills, lastTrade, lastSeq)
         == FillEvents(p, [f], lastTrade, lastSeq) + FillEvents(p, fills, lastTrade + 1, lastSeq + 2)
  {
  }

  // ---------- one command ----------

  /** The orders known once the command has been processed: the first place of an id counts. */
  function Admitted(orders: Orders, cmd: Command): Orders {
    if cmd.Place? && cmd.place.orderId !in orders then orders[cmd.place.orderId := cmd.place] else orders
  }

  lemma {:induction false} LifeCycleGrows(orders: Orders, orders': Orders, ev: seq<Event>)
    requires LifeCycle(orders, ev) && forall id | id in orders :: id in orders' && orders'[id] == orders[id]
    ensures LifeCycle(orders', ev)
  {
    if ev != [] {
      LifeCycleGrows(orders, orders', ev[..|ev| - 1]);
    }
  }

  /** A fresh id enters the history: known, not resting, nothing traded. */
  lemma Enter(orders: Orders, s: State, ev: seq<Event>, p: PlaceCommand)
    requires Good(s) && Hist(orders, s, ev, None) && p.orderId !in orders
    ensures var s' := s.(seen := s.seen + {p.orderId});
            var orders' := orders[p.orderId := p];
            Good(s') && Hist(orders', s', ev, Some(p.orderId)) && Taking(orders', s', ev, p, p.qty)
  {
    LifeCycleGrows(orders, orders[p.orderId := p], ev);
  }

  /** The taker's own closing update, when it does not rest. */
  lemma CloseTaker(orders: Orders, s: State, ev: seq<Event>, p: PlaceCommand, left: Qty, u: OrderUpdate)
    requires Hist(orders, s, ev, Some(p.orderId)) && Taking(orders, s, ev, p, left)
    requires u.orderId == p.orderId && Terminal(u.status) && UpdateOk(orders, ev, u)
    ensures Hist(orders, s.(lastSeq := s.lastSeq + 1), ev + [Event(s.lastSeq + 1, OrderChanged(u))], None)
  {
  }

  /** The taker joins the book with what is left. */
  lemma OpenTaker(orders: Orders, s: State, ev: seq<Event>, p: PlaceCommand, left: Qty, u: OrderUpdate)
    requires Good(s) && Hist(orders, s, ev, Some(p.orderId)) && Taking(orders, s, ev, p, left)
    requires 0 < left && p.orderType.Limit? && p.price.Some? && p.tif.Gtc?
    requires u.orderId == p.orderId && !Terminal(u.status) && UpdateOk(orders, ev, u)
    ensures var s' := s.(lastSeq := s.lastSeq + 1);
            Hist(orders, s'.With(p.side, Insert(p.side, s'.On(p.side), TakerOrder(p, LimitOf(p), left))),
                 ev + [Event(s.lastSeq + 1, OrderChanged(u))], None)
  {
    hide Good, LifeCycle, Insert, Books, Fates, Traded, Ended, TradeCount;
    var e := Event(s.lastSeq + 1, OrderChanged(u));
    var o := TakerOrder(p, LimitOf(p), left);
    Append(ev, e);
    OpenBooks(orders, s, ev, p.side, o, e);
    OpenFates(orders, s, ev, p.side, o, e);
    assert Hist(orders, s.(lastSeq := s.lastSeq + 1).With(p.side, Insert(p.side, s.On(p.side), o)), ev + [e], None);
  }

  lemma OpenBooks(orders: Orders, s: State, ev: seq<Event>, side: Side, o: Order, e: Event)
    requires Books(orders, s, ev) && Live(orders, ev, side, o)
    requires e.kind.OrderChanged? && !Terminal(e.kind.update.status)
    ensures Books(orders, s.(lastSeq := s.lastSeq + 1).With(side, Insert(side, s.On(side), o)), ev + [e])
  {
    Append(ev, e);
    InsertMembers(side, s.On(side), o);
    hide Insert, Traded, Ended;
    assert SideLive(orders, ev + [e], side, Insert(side, s.On(side), o));
    assert SideLive(orders, ev + [e], side.Opposite(), s.On(side.Opposite()));
  }

  lemma OpenFates(orders: Orders, s: State, ev: seq<Event>, side: Side, o: Order, e: Event)
    requires Fates(orders, s, ev, Some(o.id)) && o.id in orders
    requires e.kind.OrderChanged? && !Terminal(e.kind.update.status)
    ensures Fates(orders, s.(lastSeq := s.lastSeq + 1).With(side, Insert(side, s.On(side), o)), ev + [e], None)
  {
    Append(ev, e);
    InsertMembers(side, s.On(side), o);
    hide Insert, Traded, Ended;
    var s' := s.(lastSeq := s.lastSeq + 1).With(side, Insert(side, s.On(side), o));
    assert o in s'.bids + s'.asks;
    forall id | id in orders && id != o.id && Resting(s, id)
      ensures Resting(s', id)
    {
      var x :| x in s.bids + s.asks && x.id == id;
      assert x in s'.bids + s'.asks;
    }
  }

  lemma FinishHist(orders: Orders, s: State, ev: seq<Event>, p: PlaceCommand, sweep: Sweep)
    requires Good(s) && Hist(orders, s, ev, Some(p.orderId)) && Taking(orders, s, ev, p, sweep.left)
    requires p.orderType.Limit? ==> p.price.Some?
    requires p.orderType.Market? ==> p.price.None?
    requires 0 < p.qty && (sweep.stopped ==> sweep.left > 0)
    ensures Hist(orders, Conclude(s, p, LimitOf(p), sweep),
                 ev + [Event(s.lastSeq + 1, OrderChanged(TakerUpdate(p, LimitOf(p), sweep)))], None)
  {
    var u := TakerUpdate(p, LimitOf(p), sweep);
    assert UpdateOk(orders, ev, u);
    if Rests(p, sweep) {
      OpenTaker(orders, s, ev, p, sweep.left, u);
    } else {
      CloseTaker(orders, s, ev, p, sweep.left, u);
    }
  }

  lemma PlaceHist(orders: Orders, s: State, ev: seq<Event>, p: PlaceCommand)
    requires Good(s) && Hist(orders, s, ev, None) && p.orderId !in orders
    ensures var r := DoPlace(s, p);
            Hist(orders[p.orderId := p], r.state, ev + r.events, None)
  {
    var s1 := s.(seen := s.seen + {p.orderId});
    var orders' := orders[p.orderId := p];
    Enter(orders, s, ev, p);
    var os := s1.On(p.side.Opposite());
    if Admit(p, os).None? {
      CloseTaker(orders', s1, ev, p, p.qty,
                 OrderUpdate(p.orderId, p.userId, p.side, p.price, Rejected, 0, p.qty));
    } else {
      SweepHist(orders', s1, ev, p, p.qty);
      ExecuteHist(orders', s1, ev, p);
    }
  }

  lemma ExecuteHist(orders: Orders, s: State, ev: seq<Event>, p: PlaceCommand)
    requires Good(s) && SweepsWell(orders, s, ev, p, p.qty) && Admit(p, s.On(p.side.Opposite())).Some?
    ensures var r := Execute(s, p, LimitOf(p));
            Hist(orders, r.state, ev + r.events, None)
  {
    hide Good, Hist, Taking;
    var sweep := Match(p, LimitOf(p), s.On(p.side.Opposite()), p.qty);
    StopsEarly(p, LimitOf(p), s.On(p.side.Opposite()), p.qty);
    hide Match;
    var swept := AfterSweep(s, p, sweep);
    assert swept == MidSweep(s, p, |sweep.fills|, sweep.rest);
    var ev1 := ev + FillEvents(p, sweep.fills, s.lastTrade, s.lastSeq);
    TakingLeft(orders, swept, ev1, p, sweep.left);
    FinishHist(orders, swept, ev1, p, sweep);
    var last := [Event(swept.lastSeq + 1, OrderChanged(TakerUpdate(p, LimitOf(p), sweep)))];
    assert ev1 + last == ev + (FillEvents(p, sweep.fills, s.lastTrade, s.lastSeq) + last);
  }

  lemma TakingLeft(orders: Orders, s: State, ev: seq<Event>, p: PlaceCommand, left: Qty)
    requires Taking(orders, s, ev, p, left)
    ensures left <= p.qty
  {
  }

  lemma {:induction false} StopsEarly(p: PlaceCommand, limit: Px, os: seq<Order>, left: Qty)
    ensures Match(p, limit, os, left).stopped ==> Match(p, limit, os, left).left > 0
  {
    if left == 0 || os == [] || !Crosses(p.side, os[0].price, limit) || SelfTrade(p, os[0]) {
    } else if left >= os[0].remaining {
      StopsEarly(p, limit, os[1..], left - os[0].remaining);
    }
  }

  /** Canceling ends exactly the order taken out. */
  lemma CancelOnHist(orders: Orders, s: State, ev: seq<Event>, side: Side, o: Order)
    requires Good(s) && Hist(orders, s, ev, None) && o in s.On(side)
    requires o.remaining <= o.qty
    ensures var r := CancelOn(s, side, o);
            Hist(orders, r.state, ev + r.events, None)
  {
    var e := Event(s.lastSeq + 1, OrderChanged(CancelUpdate(side, o)));
    Append(ev, e);
    assert Live(orders, ev, side, o) && 0 < o.remaining;
    assert EventOk(orders, ev, e);
    CancelBooks(orders, s, ev, side, o, e);
    CancelFates(orders, s, ev, side, o, e);
  }

  lemma CancelBooks(orders: Orders, s: State, ev: seq<Event>, side: Side, o: Order, e: Event)
    requires Good(s) && Books(orders, s, ev) && o in s.On(side)
    requires e.kind.OrderChanged? && e.kind.update.orderId == o.id
    ensures Books(orders, s.With(side, Remove(s.On(side), o.id)), ev + [e])
  {
    Append(ev, e);
    GoodBySides(s, side);
    RemoveMembers(s.On(side), o.id);
    hide Good, Remove;
    StillLive(orders, ev, side, s.On(side), Remove(s.On(side), o.id), e);
    StillLive(orders, ev, side.Opposite(), s.On(side.Opposite()), s.On(side.Opposite()), e);
  }

  lemma StillLive(orders: Orders, ev: seq<Event>, side: Side, os: seq<Order>, os': seq<Order>, e: Event)
    requires SideLive(orders, ev, side, os) && forall x | x in os' :: x in os && !Names(e, x.id)
    ensures SideLive(orders, ev + [e], side, os')
  {
    Append(ev, e);
    hide Traded, Ended;
  }

  lemma CancelFates(orders: Orders, s: State, ev: seq<Event>, side: Side, o: Order, e: Event)
    requires Good(s) && Fates(orders, s, ev, None) && o in s.On(side) && o.id in orders
    requires EndsAt(e, o.id)
    ensures Fates(orders, s.With(side, Remove(s.On(side), o.id)), ev + [e], None)
  {
    Append(ev, e);
    GoodDistinct(s, side);
    RemoveMembers(s.On(side), o.id);
    hide Good, Remove;
    var s' := s.With(side, Remove(s.On(side), o.id));
    forall id | id in orders
      ensures Ended(ev + [e], id) || Resting(s', id)
    {
      if id != o.id && Resting(s, id) {
        var x :| x in s.bids + s.asks && x.id == id;
        assert x in s'.bids + s'.asks;
      }
    }
  }

  lemma StepHist(orders: Orders, s: State, ev: seq<Event>, cmd: Command)
    requires Good(s) && Hist(orders, s, ev, None)
    ensures var r := Step(s, cmd);
            Good(r.state) && Hist(Admitted(orders, cmd), r.state, ev + r.events, None)
  {
    StepKeeps(s, cmd);
    hide Good;
    assert ev + [] == ev;
    match cmd
    case Place(p) =>
      if p.orderId !in orders {
        PlaceHist(orders, s, ev, p);
      }
    case Cancel(c) =>
      FindOk(s.bids, c.orderId);
      FindOk(s.asks, c.orderId);
      GoodSizes(s);
      if Find(s.bids, c.orderId).Some? {
        CancelOnHist(orders, s, ev, Bid, Find(s.bids, c.orderId).value);
      } else if Find(s.asks, c.orderId).Some? {
        CancelOnHist(orders, s, ev, Ask, Find(s.asks, c.orderId).value);
      }
  }

  // ---------- whole runs ----------

  function Known(log: seq<Command>): Orders {
    if log == [] then map[] else Admitted(Known(log[..|log| - 1]), log[|log| - 1])
  }

  ghost function After(log: seq<Command>): (s: State)
    ensures Good(s)
  {
    if log == [] then EMPTY
    else
      var s := After(log[..|log| - 1]);
      StepKeeps(s, log[|log| - 1]);
      Step(s, log[|log| - 1]).state
  }

  /** Everything a crash-free engine emits for the log. */
  ghost function Emitted(log: seq<Command>): seq<Event> {
    if log == [] then []
    else Emitted(log[..|log| - 1]) + Step(After(log[..|log| - 1]), log[|log| - 1]).events
  }

  lemma {:induction false} RunHist(log: seq<Command>)
    ensures Hist(Known(log), After(log), Emitted(log), None)
  {
    if log != [] {
      var front := log[..|log| - 1];
      RunHist(front);
      StepHist(Known(front), After(front), Emitted(front), log[|log| - 1]);
    }
  }

  lemma {:induction false} LifeCycleAt(orders: Orders, ev: seq<Event>, k: nat)
    requires LifeCycle(orders, ev) && k < |ev|
    ensures EventOk(orders, ev[..k], ev[k])
  {
    if k < |ev| - 1 {
      LifeCycleAt(orders, ev[..|ev| - 1], k);
      assert ev[..|ev| - 1][..k] == ev[..k];
    }
  }

  lemma {:induction false} EndedFrom(ev: seq<Event>, id: Id, k: nat, n: nat)
    requires k < n <= |ev| && EndsAt(ev[k], id)
    ensures Ended(ev[..n], id)
  {
    assert ev[..n][..n - 1] == ev[..n - 1];
    if k < n - 1 {
      EndedFrom(ev, id, k, n - 1);
    }
  }

  /** An order has at most one terminal update, and no event names it afterwards. */
  lemma NothingAfterTheEnd(log: seq<Command>, id: Id, i: nat, j: nat)
    requires i < j < |Emitted(log)| && EndsAt(Emitted(log)[i], id)
    ensures !Names(Emitted(log)[j], id)
  {
    RunHist(log);
    LifeCycleAt(Known(log), Emitted(log), j);
    EndedFrom(Emitted(log), id, i, j);
  }

  /** Each update reports exactly the quantity traded so far, never more than was asked for. */
  lemma UpdatesReportTrades(log: seq<Command>, k: nat)
    requires k < |Emitted(log)| && Emitted(log)[k].kind.OrderChanged?
    ensures var u := Emitted(log)[k].kind.update;
            && u.filledQty == Traded(Emitted(log)[..k], u.orderId) <= u.qty
            && StatusFits(u.status, u.filledQty, u.qty)
            && u.orderId in Known(log) && u.qty == Known(log)[u.orderId].qty
  {
    RunHist(log);
    LifeCycleAt(Known(log), Emitted(log), k);
  }

  /** Sequence numbers are 1, 2, 3, ... and trade ids count the trades. */
  lemma NumberedWithoutGaps(log: seq<Command>, k: nat)
    requires k < |Emitted(log)|
    ensures Emitted(log)[k].seqNo == k + 1
    ensures Emitted(log)[k].kind.TradeMade? ==> Emitted(log)[k].kind.trade.tradeId == TradeCount(Emitted(log)[..k]) + 1
  {
    RunHist(log);
    LifeCycleAt(Known(log), Emitted(log), k);
  }

  /** No order is lost: it either still rests with exactly what has not been traded, or it has ended. */
  lemma EveryOrderAccounted(log: seq<Command>, id: Id)
    requires id in Known(log)
    ensures Ended(Emitted(log), id) <==> !Resting(After(log), id)
    ensures forall o | o in After(log).bids + After(log).asks ::
              o.id == id ==> o.remaining == Known(log)[id].qty - Traded(Emitted(log), id)
  {
    RunHist(log);
  }

  /** Within the limit, between the two named users, on opposite sides, never beyond either quantity. */
  lemma TradesRespectBothOrders(log: seq<Command>, k: nat)
    requires k < |Emitted(log)| && Emitted(log)[k].kind.TradeMade?
    ensures TradeOk(Known(log), Emitted(log)[..k], Emitted(log)[k].kind.trade)
  {
    RunHist(log);
    LifeCycleAt(Known(log), Emitted(log), k);
  }

  /** A taker is never post-only, and one that asked not to trade with its own user never does. */
  lemma TakersKeepTheirWord(log: seq<Command>, k: nat)
    requires k < |Emitted(log)| && Emitted(log)[k].kind.TradeMade?
    ensures var t := Emitted(log)[k].kind.trade;
            && t.takerOrderId in Known(log)
            && !Known(log)[t.takerOrderId].postOnly
            && (Known(log)[t.takerOrderId].stp == CancelTaker ==> t.makerUserId != t.takerUserId)
  {
    TradesRespectBothOrders(log, k);
  }
}
