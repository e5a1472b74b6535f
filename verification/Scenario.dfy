/**
 * The shortest log with a trade, in closed form: a bid that rests and an ask that is filled against it.
 * Concrete inputs elsewhere are instances of it.
 */
module Scenario {
  import opened Protocol
  import opened Book
  import opened History
  import opened Duplicates

  /** A good-till-canceled limit order without self-trade handling. */
  function Plain(id: Id, user: Id, side: Side, price: Px, qty: Qty): PlaceCommand {
    PlaceCommand(id, user, side, Limit, Gtc, NoStp, false, Some(price), qty)
  }

  function Update(p: PlaceCommand, status: OrderStatus, filled: Qty): EventKind {
    OrderChanged(OrderUpdate(p.orderId, p.userId, p.side, p.price, status, filled, p.qty))
  }

  /** A bid and an ask it covers. */
  predicate Pair(bid: PlaceCommand, ask: PlaceCommand) {
    && bid == Plain(bid.orderId, bid.userId, Bid, LimitOf(bid), bid.qty)
    && ask == Plain(ask.orderId, ask.userId, Ask, LimitOf(ask), ask.qty)
    && bid.orderId != ask.orderId && 0 < LimitOf(ask) <= LimitOf(bid) && 0 < ask.qty <= bid.qty
  }

  function OpeningEvents(bid: PlaceCommand): seq<Event> {
    [Event(1, Update(bid, OrderStatus.Open, 0))]
  }

  function FillingEvents(bid: PlaceCommand, ask: PlaceCommand): seq<Event> {
    [Event(2, TradeMade(Trade(1, bid.orderId, ask.orderId, bid.userId, ask.userId, Ask, LimitOf(bid), ask.qty))),
     Event(3, Update(bid, if ask.qty == bid.qty then Filled else PartiallyFilled, ask.qty)),
     Event(4, Update(ask, Filled, ask.qty))]
  }

  function BidLeft(bid: PlaceCommand, left: Qty): seq<Order> {
    if left == 0 then [] else [Order(bid.orderId, bid.userId, LimitOf(bid), bid.qty, left)]
  }

  lemma BidRests(bid: PlaceCommand)
    requires bid == Plain(bid.orderId, bid.userId, Bid, LimitOf(bid), bid.qty) && 0 < LimitOf(bid) && 0 < bid.qty
    ensures Step(EMPTY, Place(bid))
         == Outcome(State(BidLeft(bid, bid.qty), [], {bid.orderId}, 0, 1), OpeningEvents(bid))
  {
    assert EMPTY.seen + {bid.orderId} == {bid.orderId};
  }

  lemma AskFills(bid: PlaceCommand, ask: PlaceCommand)
    requires Pair(bid, ask)
    ensures var s := State(BidLeft(bid, bid.qty), [], {bid.orderId}, 0, 1);
            BookOk(s.bids) && BookOk(s.asks)
            && Step(s, Place(ask))
               == Outcome(State(BidLeft(bid, bid.qty - ask.qty), [], {bid.orderId, ask.orderId}, 1, 4),
                          FillingEvents(bid, ask))
  {
    var s := State(BidLeft(bid, bid.qty), [], {bid.orderId}, 0, 1);
    var os := s.bids;
    assert os[1..] == [];
    var sweep := Match(ask, LimitOf(ask), os, ask.qty);
    assert Match(ask, LimitOf(ask), os[1..], 0) == Sweep([], [], 0, false);
    assert [Fill(os[0], ask.qty)] + [] == [Fill(os[0], ask.qty)];
    assert sweep == Sweep([Fill(os[0], ask.qty)], BidLeft(bid, bid.qty - ask.qty), 0, false);
    assert sweep.fills[1..] == [];
    assert FillEvents(ask, [], 1, 3) == [];
    assert s.seen + {ask.orderId} == {bid.orderId, ask.orderId};
  }

  /** What the engine makes of the two commands. */
  lemma TwoOrders(bid: PlaceCommand, ask: PlaceCommand)
    requires Pair(bid, ask)
    ensures var log := [Place(bid), Place(ask)];
            && After(log) == State(BidLeft(bid, bid.qty - ask.qty), [], {bid.orderId, ask.orderId}, 1, 4)
            && Emitted(log) == OpeningEvents(bid) + FillingEvents(bid, ask)
            && Emitted([Place(bid)]) == OpeningEvents(bid)
            && Known(log) == map[bid.orderId := bid, ask.orderId := ask]
  {
    hide After, Emitted, Known, Step, FillingEvents, OpeningEvents, BidLeft, Plain;
    BidRests(bid);
    AskFills(bid, ask);
    NothingYet();
    AfterOne([], Place(bid));
    assert [] + [Place(bid)] == [Place(bid)];
    AfterOne([Place(bid)], Place(ask));
    assert [Place(bid)] + [Place(ask)] == [Place(bid), Place(ask)];
    assert [] + OpeningEvents(bid) == OpeningEvents(bid);
  }

  lemma NothingYet()
    ensures After([]) == EMPTY && Emitted([]) == [] && Known([]) == map[]
  {
  }
}
