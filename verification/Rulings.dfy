/**
 * What becomes of an order, read off its fields and the resting orders: who is turned away, what trades, where a
 * taker stops, and what is left in the book.  Nothing here mentions how the engine gets there.
 */
module Rulings {
  import opened Protocol
  import opened Book
  import opened Matching
  import opened History
  import EngineState

  /** A positive quantity, and a positive price exactly for limit orders; post-only needs a price. */
  predicate Sane(p: PlaceCommand) {
    0 < p.qty && if p.orderType.Limit? then p.price.Some? && 0 < p.price.value else p.price.None? && !p.postOnly
  }

  /** The order asked not to trade with its own user, and this is one of the user's orders. */
  predicate OwnOrder(p: PlaceCommand, o: Order) {
    p.stp == CancelTaker && o.user == p.userId
  }

  /** The first n opposite orders can be taken, the next one cannot: too dear, or the user's own. */
  predicate Reachable(p: PlaceCommand, os: seq<Order>, n: nat) {
    && n <= |os|
    && (forall i :: 0 <= i < n ==> PriceKept(p, os[i].price) && !OwnOrder(p, os[i]))
    && (n < |os| ==> !PriceKept(p, os[n].price) || OwnOrder(p, os[n]))
  }

  /** A post-only order that would take, or a fill-or-kill order that finds too little modulo 2^64. */
  ghost predicate TurnedAway(p: PlaceCommand, os: seq<Order>, n: nat)
    requires BookOk(os) && n <= |os|
  {
    || !Sane(p)
    || (p.postOnly && exists o :: o in os && PriceKept(p, o.price))
    || (p.tif.Fok? && Matching.Open(os[..n]) % U64_MODULUS < p.qty)
  }

  /** Stopped with something left, at an own order that is within the price. */
  predicate StoppedAtOwn(p: PlaceCommand, os: seq<Order>, n: nat)
    requires BookOk(os) && n <= |os|
  {
    Matching.Open(os[..n]) < p.qty && n < |os| && PriceKept(p, os[n].price)
  }

  predicate GoodTillCanceled(p: PlaceCommand) {
    p.orderType == OrderType.Limit && p.tif == Gtc
  }

  function Ruling(p: PlaceCommand, os: seq<Order>, n: nat): OrderStatus
    requires BookOk(os) && n <= |os|
  {
    var got := Min(p.qty, Matching.Open(os[..n]));
    if got == p.qty then Filled
    else if !GoodTillCanceled(p) || StoppedAtOwn(p, os, n) then Canceled
    else if got == 0 then OrderStatus.Open else PartiallyFilled
  }

  // ---------- the same in the engine's terms ----------

  lemma {:induction false} ReachableExists(p: PlaceCommand, os: seq<Order>) returns (n: nat)
    ensures Reachable(p, os, n)
  {
    n := 0;
    if os != [] && PriceKept(p, os[0].price) && !OwnOrder(p, os[0]) {
      n := ReachableExists(p, os[1..]);
      n := n + 1;
    }
  }

  lemma PriceIsLimit(p: PlaceCommand, price: Px)
    requires Sane(p)
    ensures PriceKept(p, price) <==> Crosses(p.side, price, LimitOf(p))
  {
  }

  lemma ReachIs(p: PlaceCommand, os: seq<Order>, n: nat)
    requires Sane(p) && Reachable(p, os, n)
    ensures Reach(p, LimitOf(p), os, n)
  {
    hide Crosses, PriceKept, LimitOf;
    forall i | 0 <= i < |os|
      ensures PriceKept(p, os[i].price) <==> Crosses(p.side, os[i].price, LimitOf(p))
    {
      PriceIsLimit(p, os[i].price);
    }
  }

  lemma ReachUnique(p: PlaceCommand, limit: Px, os: seq<Order>, n: nat, k: nat)
    requires Reach(p, limit, os, n) && Reach(p, limit, os, k)
    ensures n == k
  {
  }

  lemma FillableIs(p: PlaceCommand, os: seq<Order>, n: nat)
    requires BookOk(os) && Sane(p) && Reachable(p, os, n)
    ensures Fillable(p, LimitOf(p), os) == Matching.Open(os[..n])
  {
    ReachIs(p, os, n);
    var k := FillableIsReach(p, LimitOf(p), os);
    ReachUnique(p, LimitOf(p), os, n, k);
  }

  /** On a sorted list somebody is within the price iff the first one is. */
  lemma CrossIs(p: PlaceCommand, os: seq<Order>)
    requires Sane(p) && Sorted(p.side.Opposite(), os)
    ensures WouldCross(p.side, LimitOf(p), os) <==> exists o :: o in os && PriceKept(p, o.price)
  {
    forall o | o in os
      ensures PriceKept(p, o.price) <==> Crosses(p.side, o.price, LimitOf(p))
    {
      PriceIsLimit(p, o.price);
    }
    if o :| o in os && PriceKept(p, o.price) {
      var k :| 0 <= k < |os| && os[k] == o;
      assert k > 0 ==> !Better(p.side.Opposite(), os[k].price, os[0].price);
    }
  }

  lemma AdmitIs(p: PlaceCommand, os: seq<Order>, n: nat)
    requires BookOk(os) && Sorted(p.side.Opposite(), os) && Reachable(p, os, n)
    ensures Admit(p, os) == if TurnedAway(p, os, n) then None else Some(LimitOf(p))
  {
    if Sane(p) {
      hide PriceKept, Crosses, Fillable, WouldCross, LimitOf;
      FillableIs(p, os, n);
      CrossIs(p, os);
    }
  }

  lemma {:induction false} FillEventAt(p: PlaceCommand, fills: seq<Fill>, lastTrade: nat, lastSeq: nat, i: nat)
    requires FillsOk(fills) && i < |fills|
    ensures FillEvents(p, fills, lastTrade, lastSeq)[2 * i]
         == Event(lastSeq + 2 * i + 1, TradeMade(TradeOf(p, fills[i], lastTrade + i + 1)))
    decreases i
  {
    if i > 0 {
      FillEventAt(p, fills[1..], lastTrade + 1, lastSeq + 2, i - 1);
    }
  }

  // ---------- the rulings ----------

  /** Turned away: one update says so, and nothing else happens. */
  lemma TurnedAwayIs(s: State, p: PlaceCommand, n: nat)
    requires Good(s) && p.orderId !in s.seen && Reachable(p, s.On(p.side.Opposite()), n)
    ensures var os := s.On(p.side.Opposite());
            var r := DoPlace(s, p);
            TurnedAway(p, os, n) ==>
              && r.state == s.(seen := s.seen + {p.orderId}, lastSeq := s.lastSeq + 1)
              && r.events == [Event(s.lastSeq + 1, OrderChanged(
                                OrderUpdate(p.orderId, p.userId, p.side, p.price, Rejected, 0, p.qty)))]
  {
    AdmitIs(p, s.On(p.side.Opposite()), n);
    hide Admit, TurnedAway, Reachable;
  }

  lemma ExecutedAs(s: State, p: PlaceCommand, n: nat)
    requires Good(s) && p.orderId !in s.seen && Reachable(p, s.On(p.side.Opposite()), n)
    requires !TurnedAway(p, s.On(p.side.Opposite()), n)
    ensures Sane(p) && DoPlace(s, p) == Execute(s.(seen := s.seen + {p.orderId}), p, LimitOf(p))
    ensures Greedy(p, LimitOf(p), s.On(p.side.Opposite()), p.qty, n,
                   Match(p, LimitOf(p), s.On(p.side.Opposite()), p.qty))
  {
    var os := s.On(p.side.Opposite());
    AdmitIs(p, os, n);
    ReachIs(p, os, n);
    MatchIsGreedy(p, LimitOf(p), os, p.qty, n);
    hide Admit, Reachable, Greedy, Execute, Good;
  }

  lemma ExecuteIs(s: State, p: PlaceCommand, limit: Px)
    requires BookOk(s.bids) && BookOk(s.asks)
    ensures var sweep := Match(p, limit, s.On(p.side.Opposite()), p.qty);
            var r := Execute(s, p, limit);
            && sweep.left <= p.qty && FillsOk(sweep.fills)
            && r.events == FillEvents(p, sweep.fills, s.lastTrade, s.lastSeq)
                           + [Event(s.lastSeq + 2 * |sweep.fills| + 1, OrderChanged(TakerUpdate(p, limit, sweep)))]
            && r.state.On(p.side)
               == if Rests(p, sweep) then Insert(p.side, s.On(p.side), TakerOrder(p, limit, sweep.left))
                  else s.On(p.side)
  {
    MatchBounds(p, limit, s.On(p.side.Opposite()), p.qty);
    hide Match, Insert, FillEvents, TakerStatus;
  }

  /** Everybody else trades with the reachable orders in turn, each giving what is still wanted. */
  lemma TradesAre(s: State, p: PlaceCommand, n: nat, i: nat)
    requires Good(s) && p.orderId !in s.seen && Reachable(p, s.On(p.side.Opposite()), n)
    requires !TurnedAway(p, s.On(p.side.Opposite()), n) && i < n
    ensures var os := s.On(p.side.Opposite());
            var ev := DoPlace(s, p).events;
            if Matching.Open(os[..i]) >= p.qty then |ev| <= 2 * i + 1
            else
              2 * i + 1 < |ev|
              && ev[2 * i].kind
                 == TradeMade(Trade(s.lastTrade + i + 1, os[i].id, p.orderId, os[i].user, p.userId, p.side, os[i].price,
                                    Min(os[i].remaining, p.qty - Matching.Open(os[..i]))))
  {
    hide Match, Execute, FillEvents, DoPlace, TurnedAway, Matching.Open, Good, PriceKept;
    GoodSizes(s);
    ExecutedAs(s, p, n);
    ExecuteIs(s.(seen := s.seen + {p.orderId}), p, LimitOf(p));
    var os := s.On(p.side.Opposite());
    var sweep := Match(p, LimitOf(p), os, p.qty);
    assert i < |sweep.fills| <==> Share(os, p.qty, i) > 0;
    assert os[i] in os;
    if i < |sweep.fills| {
      FillEventAt(p, sweep.fills, s.lastTrade, s.lastSeq, i);
    }
  }

  /** The closing update, and what is left of the order in the book. */
  lemma ClosesAs(s: State, p: PlaceCommand, n: nat)
    requires Good(s) && p.orderId !in s.seen && Reachable(p, s.On(p.side.Opposite()), n)
    requires !TurnedAway(p, s.On(p.side.Opposite()), n)
    ensures var os := s.On(p.side.Opposite());
            var r := DoPlace(s, p);
            var got := Min(p.qty, Matching.Open(os[..n]));
            && r.events != []
            && r.events[|r.events| - 1].kind
               == OrderChanged(OrderUpdate(p.orderId, p.userId, p.side, p.price, Ruling(p, os, n), got, p.qty))
            && (got == 0 ==> |r.events| == 1)
            && forall o :: o in r.state.On(p.side) && o.id == p.orderId
                 <==> got < p.qty && GoodTillCanceled(p) && !StoppedAtOwn(p, os, n)
                      && o == Order(p.orderId, p.userId, p.price.value, p.qty, p.qty - got)
  {
    hide Match, Execute, FillEvents, DoPlace, TurnedAway, Matching.Open, Good, PriceKept, Share, Insert;
    GoodSizes(s);
    ExecutedAs(s, p, n);
    ExecuteIs(s.(seen := s.seen + {p.orderId}), p, LimitOf(p));
    var os := s.On(p.side.Opposite());
    var sweep := Match(p, LimitOf(p), os, p.qty);
    StopIs(p, os, n);
    RestingIs(s, p, sweep.left);
    NoFills(os, p.qty, n);
  }

  lemma NoFills(os: seq<Order>, qty: Qty, n: nat)
    requires BookOk(os) && n <= |os|
    ensures Matching.Open(os[..n]) == 0 ==> n == 0
  {
    if n > 0 {
      assert os[..n][0] in os;
    }
  }

  lemma RestingIs(s: State, p: PlaceCommand, left: Qty)
    requires Good(s) && p.orderId !in s.seen
    ensures forall o :: o in s.On(p.side) ==> o.id != p.orderId
    ensures forall o :: o in Insert(p.side, s.On(p.side), TakerOrder(p, LimitOf(p), left)) && o.id == p.orderId
              <==> o == TakerOrder(p, LimitOf(p), left)
  {
    EngineState.InsertMembers(p.side, s.On(p.side), TakerOrder(p, LimitOf(p), left));
    FreshId(s, p.orderId);
    hide Insert, Good;
    assert forall o | o in s.On(p.side) :: o in s.bids + s.asks;
  }

  lemma FreshId(s: State, id: Id)
    requires Good(s) && id !in s.seen
    ensures forall o | o in s.bids + s.asks :: o.id != id
  {
  }

  lemma StopIs(p: PlaceCommand, os: seq<Order>, n: nat)
    requires BookOk(os) && Sane(p) && Reachable(p, os, n)
    ensures StoppedAtOwn(p, os, n) <==>
            n < |os| && Crosses(p.side, os[n].price, LimitOf(p)) && Matching.Open(os[..n]) < p.qty
    ensures StoppedAtOwn(p, os, n) ==> OwnOrder(p, os[n])
  {
    if n < |os| {
      PriceIsLimit(p, os[n].price);
    }
  }

  /** Post-only: refused exactly when somebody rests within the price, and otherwise the whole order rests. */
  lemma PostOnlyIff(s: State, p: PlaceCommand)
    requires Good(s) && p.orderId !in s.seen && p.postOnly && GoodTillCanceled(p) && p.price.Some?
    requires 0 < p.qty && 0 < p.price.value
    ensures var os := s.On(p.side.Opposite());
            var ev := DoPlace(s, p).events;
            && |ev| == 1 && ev[0].kind.OrderChanged?
            && (ev[0].kind.update.status == Rejected <==>
                  exists o :: o in os && if p.side.Bid? then o.price <= p.price.value else p.price.value <= o.price)
            && (ev[0].kind.update.status != Rejected ==>
                  Order(p.orderId, p.userId, p.price.value, p.qty, p.qty) in DoPlace(s, p).state.On(p.side))
  {
    var os := s.On(p.side.Opposite());
    var n := ReachableExists(p, os);
    if TurnedAway(p, os, n) {
      TurnedAwayIs(s, p, n);
    } else {
      ClosesAs(s, p, n);
      assert forall i :: 0 <= i < |os| ==> os[i] in os;
      NothingReached(p, os, n);
    }
  }

  lemma NothingReached(p: PlaceCommand, os: seq<Order>, n: nat)
    requires BookOk(os) && Reachable(p, os, n)
    ensures (forall i :: 0 <= i < |os| ==> !PriceKept(p, os[i].price)) ==>
              n == 0 && Matching.Open(os[..n]) == 0 && !StoppedAtOwn(p, os, n)
  {
    hide PriceKept;
    assert os[..0] == [];
    if n > 0 {
      assert PriceKept(p, os[0].price);
    }
  }

  /** The k-th order is the first one of the taker's own user, within the price, and not all is served before it. */
  predicate FirstOwn(p: PlaceCommand, os: seq<Order>, k: nat)
    requires BookOk(os) && k < |os|
  {
    && os[k].user == p.userId && Matching.Open(os[..k]) < p.qty
    && (forall i :: 0 <= i < k ==> os[i].user != p.userId)
    && (forall i :: 0 <= i <= k ==> PriceKept(p, os[i].price))
  }

  /** Self-trade prevention: a good-till-canceled order that is not turned away is canceled exactly when it asked not
      to trade with its own user and meets one of that user's orders with something left. */
  lemma StoppedIff(s: State, p: PlaceCommand)
    requires Good(s) && p.orderId !in s.seen && GoodTillCanceled(p)
    ensures var os := s.On(p.side.Opposite());
            var ev := DoPlace(s, p).events;
            && ev != [] && ev[|ev| - 1].kind.OrderChanged?
            && var status := ev[|ev| - 1].kind.update.status;
            status != Rejected ==>
              (status == Canceled <==> p.stp == CancelTaker && exists k :: 0 <= k < |os| && FirstOwn(p, os, k))
  {
    var os := s.On(p.side.Opposite());
    var n := ReachableExists(p, os);
    if TurnedAway(p, os, n) {
      TurnedAwayIs(s, p, n);
    } else {
      ClosesAs(s, p, n);
      hide DoPlace, TurnedAway, Good, Matching.Open;
      if StoppedAtOwn(p, os, n) {
        assert FirstOwn(p, os, n);
      }
      if p.stp == CancelTaker {
        forall k | 0 <= k < |os| && FirstOwn(p, os, k)
          ensures StoppedAtOwn(p, os, n)
        {
          FirstOwnIsReach(p, os, n, k);
        }
      }
    }
  }

  lemma FirstOwnIsReach(p: PlaceCommand, os: seq<Order>, n: nat, k: nat)
    requires BookOk(os) && Reachable(p, os, n) && k < |os| && FirstOwn(p, os, k) && p.stp == CancelTaker
    ensures n == k
  {
  }
}
