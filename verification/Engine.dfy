/**
 * The matching engine of one trading pair: two price-indexed books of queues, an id index and the set
 * of accepted ids, updated in place.  Every command is proved to do exactly what Book.Step says.
 */
module Engine {
  import opened Protocol
  import opened Book
  import opened Levels
  import opened Matching
  import opened EngineState

  class Engine {
    var bids: PriceLevels
    var asks: PriceLevels
    var index: Index
    var seen: set<Id>
    var nextTradeId: nat
    var lastSeq: nat

    ghost function Abs(): State
      reads this
    {
      State(Flatten(Bid, bids), Flatten(Ask, asks), seen, nextTradeId, lastSeq)
    }

    ghost predicate Valid()
      reads this
    {
      Shape(bids) && Shape(asks) && Good(Abs()) && Indexes(index, Abs())
    }

    constructor ()
      ensures Valid() && Abs() == EMPTY
    {
      bids, asks, index, seen, nextTradeId, lastSeq := map[], map[], map[], {}, 0, 0;
      hide *;
      NothingStored();
    }

    function Levels(side: Side): PriceLevels
      reads this
    {
      if side.Bid? then bids else asks
    }

    method SetLevels(side: Side, m: PriceLevels)
      modifies this`bids, this`asks
      ensures Levels(side) == m && Levels(side.Opposite()) == old(Levels(side.Opposite()))
    {
      if side.Bid? {
        bids := m;
      } else {
        asks := m;
      }
    }

    method NextSeq() returns (n: nat)
      modifies this`lastSeq
      ensures lastSeq == old(lastSeq) + 1 == n
    {
      lastSeq := lastSeq + 1;
      n := lastSeq;
    }

    /** Best opposite price and the order at the front of its queue. */
    method BestOf(taker: Side) returns (best: Option<(Px, Order)>)
      requires Valid()
      ensures best.None? <==> Abs().On(taker.Opposite()) == []
      ensures best.None? <==> Levels(taker.Opposite()) == map[]
      ensures best.Some? ==>
                var (px, o) := best.value;
                && o == Abs().On(taker.Opposite())[0] && o.price == px && 0 < o.remaining <= o.qty
                && px == Best(taker.Opposite(), Levels(taker.Opposite()).Keys)
    {
      hide Indexes;
      var m := Levels(taker.Opposite());
      FlattenHead(taker.Opposite(), m);
      if m == map[] {
        best := None;
      } else {
        var px := Best(taker.Opposite(), m.Keys);
        best := Some((px, m[px][0]));
        assert m[px][0] in Abs().On(taker.Opposite());
      }
    }

    method WouldCross(side: Side, limit: Px) returns (r: bool)
      requires Valid()
      ensures r == Book.WouldCross(side, limit, Abs().On(side.Opposite()))
    {
      hide Good, Indexes;
      var best := BestOf(side);
      r := best.Some? && Crosses(side, best.value.0, limit);
    }

    /** Level by level from the best price, order by order within a level, in a wrapping 64-bit total. */
    method FillableQty(p: PlaceCommand, limit: Px) returns (total: Qty)
      requires Valid()
      ensures total == Fillable(p, limit, Abs().On(p.side.Opposite())) % U64_MODULUS
    {
      hide Good, Indexes, Flatten;
      total := 0;
      var opp := p.side.Opposite();
      var m := Levels(opp);
      ghost var answer := Fillable(p, limit, Abs().On(opp)) % U64_MODULUS;
      while m != map[]
        invariant Shape(m)
        invariant (total + Fillable(p, limit, Flatten(opp, m))) % U64_MODULUS == answer
        decreases m.Keys
      {
        var px := Best(opp, m.Keys);
        FlattenHead(opp, m);
        FlattenBest(opp, m, px, []);
        if !Crosses(p.side, px, limit) {
          break;
        }
        var done;
        total, done := AddLevel(p, limit, m[px], total, Flatten(opp, m - {px}));
        if done {
          return;
        }
        m := m - {px};
      }
      FlattenHead(opp, m);
      assert total == answer;
    }

    /** One level's share of the fill-or-kill sum; `done` when the taker's own order cuts it off. */
    method AddLevel(p: PlaceCommand, limit: Px, level: seq<Order>, start: Qty, ghost behind: seq<Order>)
      returns (total: Qty, done: bool)
      requires forall o | o in level :: Crosses(p.side, o.price, limit)
      ensures (start + Fillable(p, limit, level + behind)) % U64_MODULUS
           == if done then total else (total + Fillable(p, limit, behind)) % U64_MODULUS
    {
      total, done := start, false;
      var i := 0;
      while i < |level|
        invariant i <= |level|
        invariant (total + Fillable(p, limit, level[i..] + behind)) % U64_MODULUS
               == (start + Fillable(p, limit, level + behind)) % U64_MODULUS
      {
        FillableStep(p, limit, level[i..], behind);
        if SelfTrade(p, level[i]) {
          return total, true;
        }
        WrapAdd(total, level[i].remaining, Fillable(p, limit, level[i + 1..] + behind));
        assert level[i..][1..] == level[i + 1..];
        total := (total + level[i].remaining) % U64_MODULUS;
        i := i + 1;
      }
      assert level[i..] + behind == behind;
    }

    /** Takes q from the front order of the best opposite level, dropping it and its level when used up. */
    method TakeFront(side: Side, px: Px, q: Qty) returns (maker: Order)
      requires Valid() && Levels(side) != map[] && px == Best(side, Levels(side).Keys)
      requires Abs().On(side) != [] && 0 < q <= Abs().On(side)[0].remaining
      modifies this`bids, this`asks, this`index
      ensures maker == old(Abs().On(side)[0])
      ensures Abs() == old(Abs()).With(side, TakenFront(old(Abs().On(side)), q))
      ensures Valid()
    {
      hide Good, Indexes, Shape, Flatten;
      ghost var s := Abs();
      var m := Levels(side);
      FlattenHead(side, m);
      FlattenTaken(side, m, q);
      TakenFrontKeeps(s, side, q, index);
      maker := m[px][0];
      SetLevels(side, TakenLevel(m, px, q));
      if maker.remaining == q {
        index := index - {maker.id};
      }
      assert index == Unindex(old(index), maker, q);
      assert Abs() == s.With(side, TakenFront(s.On(side), q));
    }

    /** One execution against the front order: reduce or drop it, then report the trade and the maker. */
    method FillFront(p: PlaceCommand, makerPrice: Px, q: Qty) returns (batch: seq<Event>)
      requires Valid() && Levels(p.side.Opposite()) != map[]
      requires makerPrice == Best(p.side.Opposite(), Levels(p.side.Opposite()).Keys)
      requires Abs().On(p.side.Opposite()) != []
      requires var head := Abs().On(p.side.Opposite())[0];
               0 < q <= head.remaining <= head.qty && head.price == makerPrice
      modifies this
      ensures Valid()
      ensures Abs() == MidSweep(old(Abs()), p, 1, TakenFront(old(Abs().On(p.side.Opposite())), q))
      ensures batch == FillEvents(p, [Fill(old(Abs().On(p.side.Opposite())[0]), q)], old(nextTradeId), old(lastSeq))
    {
      hide Good, Indexes, Shape, Flatten;
      var maker := TakeFront(p.side.Opposite(), makerPrice, q);
      ghost var taken := Abs();
      nextTradeId := nextTradeId + 1;
      var n := NextSeq();
      batch := [Event(n, TradeMade(Trade(nextTradeId, maker.id, p.orderId, maker.user, p.userId,
                                         p.side, makerPrice, q)))];
      n := NextSeq();
      var makerRemaining := maker.remaining - q;
      batch := batch + [Event(n, OrderChanged(OrderUpdate(
                          maker.id, maker.user, p.side.Opposite(), Some(makerPrice),
                          if makerRemaining == 0 then Filled else PartiallyFilled,
                          maker.qty - makerRemaining, maker.qty)))];
      GoodCounters(taken, Abs(), index);
      assert FillEvents(p, [], nextTradeId, lastSeq) == [];
    }

    /** The matching loop, then the taker's own fate. */
    method Run(p: PlaceCommand, limit: Px) returns (out: seq<Event>)
      requires Valid() && p.orderId in seen && limit == LimitOf(p)
      requires forall x | x in Abs().bids + Abs().asks :: x.id != p.orderId
      modifies this
      ensures Valid()
      ensures Outcome(Abs(), out) == Execute(old(Abs()), p, limit)
    {
      hide Good, Indexes, Shape, Flatten, Match, FillEvents, Continues, MidSweep;
      out := [];
      var filled: Qty, remaining: Qty, stopped := 0, p.qty, false;
      var opp := p.side.Opposite();
      ghost var s0, os0 := Abs(), Abs().On(opp);
      ghost var fills: seq<Fill> := [];
      LoopStart(s0, p, limit);
      while remaining > 0
        invariant Valid() && !stopped && filled + remaining == p.qty
        invariant FillsOk(fills) && Continues(p, limit, os0, fills, Abs().On(opp), remaining)
        invariant Abs() == MidSweep(s0, p, |fills|, Abs().On(opp))
        invariant out == FillEvents(p, fills, s0.lastTrade, s0.lastSeq)
        decreases remaining
      {
        var best := BestOf(p.side);
        if best.None? {
          break;
        }
        var (makerPrice, head) := best.value;
        if !Crosses(p.side, makerPrice, limit) {
          break;
        }
        if SelfTrade(p, head) {
          stopped := true;
          break;
        }
        var q: Qty := Min(remaining, head.remaining);
        ContinuesStep(p, limit, os0, fills, Abs().On(opp), remaining, q);
        MidSweepStep(s0, p, |fills|, Abs().On(opp), TakenFront(Abs().On(opp), q));
        FillEventsAppend(p, fills, Fill(head, q), s0.lastTrade, s0.lastSeq);
        var batch := FillFront(p, makerPrice, q);
        out := out + batch;
        fills := fills + [Fill(head, q)];
        remaining := remaining - q;
        filled := filled + q;
      }
      ContinuesStop(p, limit, os0, fills, Abs().On(opp), remaining, stopped);
      LoopEnd(s0, p, limit, fills, Abs().On(opp), remaining, stopped);
      var last := Finish(p, limit, filled, remaining, stopped);
      out := out + last;
    }

    /** The taker rests, is filled or is canceled; then its own update. */
    method Finish(p: PlaceCommand, limit: Px, filled: Qty, remaining: Qty, stopped: bool)
      returns (out: seq<Event>)
      requires Valid() && p.orderId in seen && filled + remaining == p.qty && limit == LimitOf(p)
      requires forall x | x in Abs().bids + Abs().asks :: x.id != p.orderId
      requires !stopped && remaining > 0 && Abs().On(p.side.Opposite()) != [] ==>
                 !Crosses(p.side, Abs().On(p.side.Opposite())[0].price, limit)
      modifies this
      ensures Valid()
      ensures Abs() == Conclude(old(Abs()), p, limit, Sweep([], [], remaining, stopped))
      ensures out == [Event(Abs().lastSeq, OrderChanged(TakerUpdate(p, limit, Sweep([], [], remaining, stopped))))]
    {
      hide Good, Indexes, Shape, Flatten;
      var status;
      if stopped {
        status := Canceled;
      } else if remaining == 0 {
        status := Filled;
      } else if p.orderType.Limit? && p.tif.Gtc? {
        Queue(p, Order(p.orderId, p.userId, limit, p.qty, remaining));
        status := if filled > 0 then PartiallyFilled else OrderStatus.Open;
      } else {
        status := Canceled;
      }
      ghost var s := Abs();
      var n := NextSeq();
      GoodCounters(s, Abs(), index);
      out := [Event(n, OrderChanged(OrderUpdate(
                p.orderId, p.userId, p.side, if p.orderType.Limit? then Some(limit) else None,
                status, filled, p.qty)))];
    }

    /** Appends a resting order to its level, creating the level when needed. */
    method Queue(p: PlaceCommand, o: Order)
      requires Valid() && o == TakerOrder(p, o.price, o.remaining) && o.id in seen && 0 < o.remaining <= o.qty
      requires forall x | x in Abs().bids + Abs().asks :: x.id != o.id
      requires Abs().On(p.side.Opposite()) != [] ==> !Crosses(p.side, Abs().On(p.side.Opposite())[0].price, o.price)
      modifies this`bids, this`asks, this`index
      ensures Valid()
      ensures Abs() == old(Abs()).With(p.side, Insert(p.side, old(Abs().On(p.side)), o))
    {
      hide Good, Indexes, Flatten, Shape;
      var m := Levels(p.side);
      FlattenInsert(p.side, m, o);
      InsertShape(m, o);
      QueueKeeps(Abs(), p.side, o, index);
      SetLevels(p.side, m[o.price := Level(m, o.price) + [o]]);
      index := index[o.id := (p.side, o.price)];
    }

    method CancelOrder(c: CancelCommand) returns (out: seq<Event>)
      requires Valid()
      modifies this
      ensures Valid()
      ensures Outcome(Abs(), out) == DoCancel(old(Abs()), c.orderId)
    {
      hide Good, Indexes, Flatten, Shape, Find, Remove, DoCancel;
      ghost var s := Abs();
      Located(s, index, c.orderId);
      if c.orderId !in index {
        return [];
      }
      var (side, price) := index[c.orderId];
      LevelOf(s, side, Levels(side), price, c.orderId);
      var order := FindInLevel(Levels(side)[price], c.orderId);
      Unqueue(side, price, c.orderId);
      s := Abs();
      var n := NextSeq();
      GoodCounters(s, Abs(), index);
      out := [Event(n, OrderChanged(OrderUpdate(
                order.id, order.user, side, Some(order.price), Canceled, order.qty - order.remaining, order.qty)))];
    }

    /** An indexed id is found in the level the index names. */
    method FindInLevel(level: seq<Order>, id: Id) returns (order: Order)
      requires exists o :: o in level && o.id == id
      ensures Find(level, id) == Some(order)
    {
      var i := 0;
      while level[i].id != id
        invariant i < |level|
        invariant exists o :: o in level[i..] && o.id == id
        invariant Find(level, id) == Find(level[i..], id)
        decreases |level| - i
      {
        assert level[i..][1..] == level[i + 1..];
        i := i + 1;
      }
      order := level[i];
    }

    method Unqueue(side: Side, price: Px, id: Id)
      requires Valid() && price in Levels(side)
      requires (exists x :: x in Levels(side)[price] && x.id == id) && exists x :: x in Abs().On(side) && x.id == id
      requires forall q | q in Levels(side) && q != price :: forall x | x in Levels(side)[q] :: x.id != id
      modifies this`bids, this`asks, this`index
      ensures Valid()
      ensures Abs() == old(Abs()).With(side, Remove(old(Abs().On(side)), id))
    {
      hide Good, Indexes, Flatten, Shape;
      var m := Levels(side);
      UnqueueKeeps(Abs(), side, id, index);
      RemoveShape(m, price, id);
      FlattenRemove(side, m, price, id);
      SetLevels(side, Put(m, price, Remove(m[price], id)));
      index := index - {id};
    }

    method Reject(p: PlaceCommand) returns (out: seq<Event>)
      requires Valid()
      modifies this`lastSeq
      ensures Valid()
      ensures Outcome(Abs(), out) == Refuse(old(Abs()), p)
    {
      hide Good, Indexes, Flatten, Shape;
      var n := NextSeq();
      GoodCounters(old(Abs()), Abs(), index);
      out := [Event(n, OrderChanged(OrderUpdate(p.orderId, p.userId, p.side, p.price, Rejected, 0, p.qty)))];
    }

    method PlaceOrder(p: PlaceCommand) returns (out: seq<Event>)
      requires Valid()
      modifies this
      ensures Valid()
      ensures Outcome(Abs(), out) == DoPlace(old(Abs()), p)
    {
      hide Good, Indexes, Shape, Flatten, Execute;
      if p.orderId in seen {
        return [];
      }
      GoodSeen(Abs(), index, p.orderId);
      seen := seen + {p.orderId};
      if p.qty == 0 {
        out := Reject(p);
        return;
      }
      var limit: Px;
      match p.orderType {
        case Limit =>
          if p.price.None? || p.price.value == 0 {
            out := Reject(p);
            return;
          }
          limit := p.price.value;
        case Market =>
          if p.price.Some? || p.postOnly {
            out := Reject(p);
            return;
          }
          limit := if p.side.Bid? then PX_MAX else 0;
      }
      if p.postOnly {
        var crosses := WouldCross(p.side, limit);
        if crosses {
          out := Reject(p);
          return;
        }
      }
      if p.tif.Fok? {
        var fillable := FillableQty(p, limit);
        if fillable < p.qty {
          out := Reject(p);
          return;
        }
      }
      out := Run(p, limit);
    }

    method Process(cmd: Command) returns (out: seq<Event>)
      requires Valid()
      modifies this
      ensures Valid()
      ensures Outcome(Abs(), out) == Step(old(Abs()), cmd)
    {
      hide Good, Indexes, Shape, Flatten, DoPlace, DoCancel;
      match cmd
      case Place(p) => out := PlaceOrder(p);
      case Cancel(c) => out := CancelOrder(c);
    }
  }
}
