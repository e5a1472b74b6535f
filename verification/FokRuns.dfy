/**
 * Runs after which a fill-or-kill order is refused although the book would fill it, because the 64-bit total wraps:
 * a sell against bids, which need little money at a low price, and a buy against an ask whose own freeze wrapped.
 */
module FokRuns {
  import opened Protocol
  import opened Book
  import opened Matching
  import opened History
  import opened Duplicates
  import opened Scenario
  import opened Ledger
  import opened Reserve
  import opened Clearing
  import opened OrderService
  import opened Trading
  import opened Steps
  import Deal
  import Fixed
  import Funding

  // ---------- orders that rest at price one ----------

  function Rested(p: PlaceCommand): Order {
    Order(p.orderId, p.userId, LimitOf(p), p.qty, p.qty)
  }

  predicate AllAtOne(os: seq<Order>) {
    forall o | o in os :: o.price == 1
  }

  predicate Resting(p: PlaceCommand) {
    p == Plain(p.orderId, p.userId, p.side, 1, p.qty) && 0 < p.qty
  }

  lemma {:induction false} InsertLast(side: Side, os: seq<Order>, o: Order)
    requires o.price == 1 && AllAtOne(os)
    ensures Insert(side, os, o) == os + [o]
  {
    if os != [] {
      InsertLast(side, os[1..], o);
    }
  }

  /** Nothing on the other side, the same price on this one. */
  lemma OrderJoins(s: State, p: PlaceCommand)
    requires BookOk(s.bids) && BookOk(s.asks) && s.On(p.side.Opposite()) == [] && AllAtOne(s.On(p.side))
    requires Resting(p) && p.orderId !in s.seen
    ensures var s' := Step(s, Place(p)).state;
            && s'.On(p.side) == s.On(p.side) + [Rested(p)] && s'.On(p.side.Opposite()) == []
            && s'.seen == s.seen + {p.orderId}
  {
    InsertLast(p.side, s.On(p.side), Rested(p));
  }

  /** The book after a log of such orders. */
  ghost predicate Holds(log: seq<Command>, side: Side, os: seq<Order>, ids: set<Id>) {
    && After(log).On(side) == os && After(log).On(side.Opposite()) == [] && After(log).seen == ids && AllAtOne(os)
  }

  lemma EmptyHolds(side: Side)
    ensures Holds([], side, [], {})
  {
    NothingYet();
  }

  lemma LogJoins(log: seq<Command>, os: seq<Order>, ids: set<Id>, p: PlaceCommand)
    requires Holds(log, p.side, os, ids) && Resting(p) && p.orderId !in ids
    ensures Holds(log + [Place(p)], p.side, os + [Rested(p)], ids + {p.orderId})
  {
    hide After, Step;
    AfterOne(log, Place(p));
    OrderJoins(After(log), p);
  }

  // ---------- a sell ----------

  /** Orders of one unit are allowed, and the smallest notional costs at most what a signed column takes. */
  predicate TakesCheapBids(m: Market) {
    MarketOk(m) && m.minQty < SCALE && (m.minNotional + 1) * SCALE <= I64_MAX
  }

  function ThirdQty(m: Market): Qty
    requires TakesCheapBids(m)
  {
    (if m.minNotional == 0 then 1 else m.minNotional) * SCALE
  }

  /** Two bids for as much as a signed column takes, and a third one, at the smallest price. */
  function BigBid(m: Market, id: Id): PlaceCommand
    requires TakesCheapBids(m)
  {
    Plain(id, 7, Bid, 1, if id < 3 then I64_MAX else ThirdQty(m))
  }

  function Cost(m: Market, id: Id): nat
    requires TakesCheapBids(m)
  {
    NeededFor(m, 1, BigBid(m, id).qty)
  }

  /** Each freezes less than two thousand whole units of quote currency. */
  lemma Affordable(m: Market, id: Id)
    requires TakesCheapBids(m)
    ensures 0 < Cost(m, id) <= 1845 * SCALE && CheckPlace(m, BigBid(m, id)) == Accepted(Cost(m, id))
  {
    var qty := BigBid(m, id).qty;
    Fixed.MulDivIsFloor(1, qty, SCALE);
    Fixed.RateAtMostOne(Notional(1, qty), m.takerRate);
    hide Fixed.MulDiv, Fixed.MulDivCeil, Fixed.CeilDiv;
    SignedSmall(Cost(m, id));
  }

  function BidFunds(m: Market): U64
    requires TakesCheapBids(m)
  {
    Affordable(m, 1);
    Affordable(m, 2);
    Affordable(m, 3);
    Cost(m, 1) + Cost(m, 2) + Cost(m, 3)
  }

  function BidScript(m: Market): seq<Action>
    requires TakesCheapBids(m)
  {
    [] + [AdminCredit("bids", 7, m.quote, BidFunds(m))]
    + Submit(BigBid(m, 1)) + Submit(BigBid(m, 2)) + Submit(BigBid(m, 3))
  }

  function BidLog(m: Market): seq<Command>
    requires TakesCheapBids(m)
  {
    [] + [Place(BigBid(m, 1))] + [Place(BigBid(m, 2))] + [Place(BigBid(m, 3))]
  }

  /** What a user's first, second, ... bid leaves: money for the rest, and a log that has grown. */
  ghost predicate Bidding(w: World, m: Market, log: seq<Command>, ids: set<Id>, left: int) {
    && Healthy(w) && w.log == log && w.pending == map[] && w.db.orders.Keys == ids
    && Balance(w.db.ledger, UserAccount(7, m.quote, Available)) == left
  }

  lemma BidPlaced(m: Market, acts: seq<Action>, id: Id, log: seq<Command>, ids: set<Id>, left: int)
    requires TakesCheapBids(m) && Bidding(Exec(m, acts), m, log, ids, left) && id !in ids && Cost(m, id) <= left
    ensures Bidding(Exec(m, acts + Submit(BigBid(m, id))), m, log + [Place(BigBid(m, id))], ids + {id},
                    left - Cost(m, id))
  {
    hide Exec, Healthy, CheckPlace, Froze, Cost;
    Affordable(m, id);
    var p := BigBid(m, id);
    Submitted(m, acts, p, Cost(m, id));
    Deal.FrozeIs(Exec(m, acts), Exec(m, acts + Submit(p)), m, p, Cost(m, id));
  }

  lemma BidsPlaced(m: Market)
    requires TakesCheapBids(m)
    ensures Exec(m, BidScript(m)).log == BidLog(m)
  {
    hide Exec, Healthy, Cost, BigBid;
    Affordable(m, 1);
    Affordable(m, 2);
    Affordable(m, 3);
    Genesis(m);
    Credited(m, [], "bids", 7, m.quote, BidFunds(m));
    var s1 := [] + [AdminCredit("bids", 7, m.quote, BidFunds(m))];
    var s2 := s1 + Submit(BigBid(m, 1));
    var s3 := s2 + Submit(BigBid(m, 2));
    BidPlaced(m, s1, 1, [], {}, BidFunds(m));
    BidPlaced(m, s2, 2, [] + [Place(BigBid(m, 1))], {} + {1}, BidFunds(m) - Cost(m, 1));
    BidPlaced(m, s3, 3, [] + [Place(BigBid(m, 1))] + [Place(BigBid(m, 2))], {} + {1} + {2},
              BidFunds(m) - Cost(m, 1) - Cost(m, 2));
  }

  function BigBook(m: Market): seq<Order>
    requires TakesCheapBids(m)
  {
    [] + [Rested(BigBid(m, 1))] + [Rested(BigBid(m, 2))] + [Rested(BigBid(m, 3))]
  }

  lemma BidsRest(m: Market)
    requires TakesCheapBids(m)
    ensures Holds(BidLog(m), Bid, BigBook(m), {} + {1} + {2} + {3})
  {
    hide Holds, Rested;
    var b1, b2, b3 := BigBid(m, 1), BigBid(m, 2), BigBid(m, 3);
    EmptyHolds(Bid);
    LogJoins([], [], {}, b1);
    LogJoins([] + [Place(b1)], [] + [Rested(b1)], {} + {1}, b2);
    LogJoins([] + [Place(b1)] + [Place(b2)], [] + [Rested(b1)] + [Rested(b2)], {} + {1} + {2}, b3);
  }

  function FokOrder(id: Id, side: Side, qty: Qty): PlaceCommand {
    PlaceCommand(id, 8, side, Limit, Fok, NoStp, false, Some(1), qty)
  }

  /** The check turns the order away, and the loop would have filled it. */
  ghost predicate WronglyRefused(s: State, p: PlaceCommand)
    requires BookOk(s.On(p.side.Opposite()))
  {
    var os := s.On(p.side.Opposite());
    && WellFormedFok(p) && FokSumWraps(p, os)
    && DoPlace(s, p).events == [Event(s.lastSeq + 1, Update(p, Rejected, 0))]
    && Match(p, LimitOf(p), os, p.qty).left == 0
  }

  lemma Refused(s: State, p: PlaceCommand)
    requires BookOk(s.On(p.side.Opposite())) && p == FokOrder(p.orderId, p.side, p.qty) && p.orderId !in s.seen
    requires 0 < p.qty && FokSumWraps(p, s.On(p.side.Opposite()))
    ensures WronglyRefused(s, p)
  {
    hide Match;
    FillablePredictsLoop(p, 1, s.On(p.side.Opposite()));
  }

  lemma {:induction false} AllReached(p: PlaceCommand, os: seq<Order>)
    requires p == FokOrder(p.orderId, p.side, p.qty) && AllAtOne(os) && BookOk(os)
    ensures Fillable(p, 1, os) == Matching.Open(os)
  {
    if os != [] {
      AllReached(p, os[1..]);
    }
  }

  lemma OpenLast(os: seq<Order>, o: Order)
    requires BookOk(os + [o])
    ensures BookOk(os) && Matching.Open(os + [o]) == Matching.Open(os) + o.remaining
  {
    assert BookOk([o]) && [o][1..] == [];
    OpenSplit(os, [o]);
    assert Matching.Open([o]) == o.remaining;
  }

  /** Three bids placed with a few thousand units of quote currency, and a sell order that they would fill completely:
      the total wraps and the engine refuses the order. */
  lemma FokSellRefused(m: Market)
    requires TakesCheapBids(m)
    ensures Ordinary(m, BidScript(m))
    ensures BookOk(After(Exec(m, BidScript(m)).log).bids)
    ensures WronglyRefused(After(Exec(m, BidScript(m)).log), FokOrder(4, Ask, ThirdQty(m)))
  {
    BidsPlaced(m);
    BidsRest(m);
    BidsFit(m);
    BigTotal(m);
    hide Exec, BidScript, BigBook, BidLog, WronglyRefused, FokSumWraps;
    Refused(After(BidLog(m)), FokOrder(4, Ask, ThirdQty(m)));
  }

  lemma BidsFit(m: Market)
    requires TakesCheapBids(m)
    ensures Ordinary(m, BidScript(m))
  {
    hide Ordinary;
    Affordable(m, 1);
    Affordable(m, 2);
    Affordable(m, 3);
    FittingIsOrdinary(m, BidScript(m));
  }

  lemma BigTotal(m: Market)
    requires TakesCheapBids(m)
    ensures FokSumWraps(FokOrder(4, Ask, ThirdQty(m)), BigBook(m))
  {
    var b1, b2, b3 := Rested(BigBid(m, 1)), Rested(BigBid(m, 2)), Rested(BigBid(m, 3));
    OpenLast([], b1);
    OpenLast([] + [b1], b2);
    OpenLast([] + [b1] + [b2], b3);
    AllReached(FokOrder(4, Ask, ThirdQty(m)), BigBook(m));
  }

  // ---------- a buy ----------

  function Little(m: Market): Qty {
    if m.minQty == 0 then 1 else m.minQty
  }

  /** An ask, and one for the rest of the 64-bit range: as a signed freeze, what the first one froze, negated. */
  function FirstAsk(m: Market): PlaceCommand {
    Plain(1, 7, Ask, 1, Little(m))
  }

  function SecondAsk(m: Market): PlaceCommand {
    Plain(2, 7, Ask, 1, U64_MODULUS - Little(m))
  }

  function AskScript(m: Market): seq<Action>
    requires m.minQty <= I64_MAX
  {
    [] + [AdminCredit("asks", 7, m.base, Little(m))] + Submit(FirstAsk(m)) + Submit(SecondAsk(m))
  }

  lemma Negative(m: Market)
    requires m.minQty <= I64_MAX
    ensures CheckPlace(m, FirstAsk(m)) == Accepted(Little(m))
    ensures CheckPlace(m, SecondAsk(m)) == Accepted(0 - Little(m))
  {
  }

  lemma AsksPlaced(m: Market)
    requires m.minQty <= I64_MAX
    ensures Exec(m, AskScript(m)).log == [] + [Place(FirstAsk(m))] + [Place(SecondAsk(m))]
  {
    hide Exec, Healthy, CheckPlace, Froze;
    Negative(m);
    Genesis(m);
    Credited(m, [], "asks", 7, m.base, Little(m));
    var s1 := [] + [AdminCredit("asks", 7, m.base, Little(m))];
    var s2 := s1 + Submit(FirstAsk(m));
    Submitted(m, s1, FirstAsk(m), Little(m));
    Deal.FrozeIs(Exec(m, s1), Exec(m, s2), m, FirstAsk(m), Little(m));
    Submitted(m, s2, SecondAsk(m), 0 - Little(m));
  }

  lemma AsksRest(m: Market)
    requires m.minQty <= I64_MAX
    ensures Holds([] + [Place(FirstAsk(m))] + [Place(SecondAsk(m))], Ask,
                  [] + [Rested(FirstAsk(m))] + [Rested(SecondAsk(m))], {} + {1} + {2})
  {
    hide Holds, Rested;
    EmptyHolds(Ask);
    LogJoins([], [], {}, FirstAsk(m));
    LogJoins([] + [Place(FirstAsk(m))], [] + [Rested(FirstAsk(m))], {} + {1}, SecondAsk(m));
  }

  /** Outside ordinary runs asks are not backed: the second ask is accepted, gives the first one's freeze back, and
      brings the total to 2^64, so that no fill-or-kill buy is accepted any more. */
  lemma FokBuyRefused(m: Market, qty: Qty)
    requires MarketOk(m) && m.minQty <= I64_MAX && 0 < qty
    ensures !Ordinary(m, AskScript(m))
    ensures BookOk(After(Exec(m, AskScript(m)).log).asks)
    ensures WronglyRefused(After(Exec(m, AskScript(m)).log), FokOrder(3, Bid, qty))
  {
    AsksPlaced(m);
    AsksRest(m);
    AskTotal(m, qty);
    hide Exec, AskScript, WronglyRefused, FokSumWraps, Ordinary;
    Refused(After(Exec(m, AskScript(m)).log), FokOrder(3, Bid, qty));
    if Ordinary(m, AskScript(m)) {
      Funding.BuysNeverWrap(m, AskScript(m), FokOrder(3, Bid, qty));
    }
  }

  lemma AskTotal(m: Market, qty: Qty)
    requires m.minQty <= I64_MAX && 0 < qty
    ensures FokSumWraps(FokOrder(3, Bid, qty), [] + [Rested(FirstAsk(m))] + [Rested(SecondAsk(m))])
  {
    var a1, a2 := Rested(FirstAsk(m)), Rested(SecondAsk(m));
    OpenLast([], a1);
    OpenLast([] + [a1], a2);
    AllReached(FokOrder(3, Bid, qty), [] + [a1] + [a2]);
  }
}
