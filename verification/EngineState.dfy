/**
 * What the engine's in-place changes do to the flat lists and to the id index: taking from the front of a
 * queue, joining the back of one, leaving it, and the progress of the matching loop.
 */
module EngineState {
  import opened Protocol
  import opened Book
  import opened Levels
  import opened Matching

  type Index = map<Id, (Side, Px)>

  ghost predicate IndexesSide(index: Index, side: Side, os: seq<Order>) {
    && (forall o | o in os :: o.id in index && index[o.id] == (side, o.price))
    && (forall id | id in index && index[id].0 == side :: exists o :: o in os && o.id == id)
  }

  /** The index lists exactly the resting orders, each at its side and price. */
  ghost predicate Indexes(index: Index, s: State) {
    IndexesSide(index, Bid, s.bids) && IndexesSide(index, Ask, s.asks)
  }

  lemma NothingStored()
    ensures Shape(map[]) && Flatten(Bid, map[]) == [] && Flatten(Ask, map[]) == []
    ensures Good(EMPTY) && Indexes(map[], EMPTY)
  {
  }

  lemma IndexesBySides(index: Index, s: State, side: Side)
    ensures Indexes(index, s) <==>
            (IndexesSide(index, side, s.On(side)) && IndexesSide(index, side.Opposite(), s.On(side.Opposite())))
  {
  }

  function TakenFront(os: seq<Order>, q: Qty): seq<Order>
    requires os != [] && q <= os[0].remaining
  {
    if q == os[0].remaining then os[1..] else [os[0].(remaining := os[0].remaining - q)] + os[1..]
  }

  function Unindex(index: Index, maker: Order, q: Qty): Index {
    if q == maker.remaining then index - {maker.id} else index
  }

  lemma TakenFrontSideOk(side: Side, os: seq<Order>, other: seq<Order>, seen: set<Id>, q: Qty)
    requires SideOk(side, os, other, seen) && os != [] && 0 < q <= os[0].remaining
    ensures SideOk(side, TakenFront(os, q), other, seen)
    ensures TakenFront(os, q) != [] ==> !Better(side, TakenFront(os, q)[0].price, os[0].price)
    ensures DisjointIds(other, TakenFront(os, q))
  {
    hide Sorted, Distinct;
    LeftoverOk(side, os, TakenFront(os, q), if q == os[0].remaining then 1 else 0, other, seen);
  }

  lemma TakenFrontGood(s: State, side: Side, q: Qty)
    requires Good(s) && s.On(side) != [] && 0 < q <= s.On(side)[0].remaining
    ensures Good(s.With(side, TakenFront(s.On(side), q)))
  {
    GoodBySides(s, side);
    TakenFrontSideOk(side, s.On(side), s.On(side.Opposite()), s.seen, q);
    GoodBySides(s.With(side, TakenFront(s.On(side), q)), side);
  }

  lemma TakenFrontIndexed(index: Index, side: Side, os: seq<Order>, other: seq<Order>, q: Qty)
    requires IndexesSide(index, side, os) && IndexesSide(index, side.Opposite(), other)
    requires os != [] && q <= os[0].remaining && Distinct(os) && DisjointIds(os, other)
    ensures IndexesSide(Unindex(index, os[0], q), side, TakenFront(os, q))
    ensures IndexesSide(Unindex(index, os[0], q), side.Opposite(), other)
  {
  }

  lemma TakenFrontKeeps(s: State, side: Side, q: Qty, index: Index)
    requires Good(s) && Indexes(index, s) && s.On(side) != [] && 0 < q <= s.On(side)[0].remaining
    ensures var s' := s.With(side, TakenFront(s.On(side), q));
            Good(s') && Indexes(Unindex(index, s.On(side)[0], q), s')
  {
    var s' := s.With(side, TakenFront(s.On(side), q));
    TakenFrontGood(s, side, q);
    GoodBySides(s, side);
    hide Good, IndexesSide;
    IndexesBySides(index, s, side);
    TakenFrontIndexed(index, side, s.On(side), s.On(side.Opposite()), q);
    IndexesBySides(Unindex(index, s.On(side)[0], q), s', side);
  }

  function TakenLevel(m: PriceLevels, px: Px, q: Qty): PriceLevels
    requires px in m && m[px] != [] && q <= m[px][0].remaining
  {
    Put(m, px, TakenFront(m[px], q))
  }

  lemma TakenShape(m: PriceLevels, px: Px, q: Qty)
    requires Shape(m) && px in m && q <= m[px][0].remaining
    ensures Shape(TakenLevel(m, px, q))
  {
  }

  lemma TakenFrontConcat(a: seq<Order>, b: seq<Order>, q: Qty)
    requires a != [] && q <= a[0].remaining
    ensures TakenFront(a + b, q) == TakenFront(a, q) + b
  {
  }

  lemma FlattenTaken(side: Side, m: PriceLevels, q: Qty)
    requires Shape(m) && m != map[]
    requires 0 < q <= m[Best(side, m.Keys)][0].remaining
    ensures var m' := TakenLevel(m, Best(side, m.Keys), q);
            Flatten(side, m) != [] && q <= Flatten(side, m)[0].remaining
            && Shape(m') && Flatten(side, m') == TakenFront(Flatten(side, m), q)
  {
    var px := Best(side, m.Keys);
    FlattenBest(side, m, px, TakenFront(m[px], q));
    TakenShape(m, px, q);
    assert m[px] != [];
    hide Shape, Flatten, TakenFront;
    TakenFrontConcat(m[px], Flatten(side, m - {px}), q);
    if TakenFront(m[px], q) == [] {
      assert [] + Flatten(side, m - {px}) == Flatten(side, m - {px});
    }
  }

  lemma IndexInsert(index: Index, side: Side, os: seq<Order>, other: seq<Order>, o: Order)
    requires IndexesSide(index, side, os) && IndexesSide(index, side.Opposite(), other)
    requires forall x | x in os + other :: x.id != o.id
    ensures IndexesSide(index[o.id := (side, o.price)], side, Insert(side, os, o))
    ensures IndexesSide(index[o.id := (side, o.price)], side.Opposite(), other)
  {
    var r := Insert(side, os, o);
    InsertMembers(side, os, o);
    assert o in r && forall x :: x in os ==> x in r;
  }

  lemma {:induction false} InsertMembers(side: Side, os: seq<Order>, o: Order)
    ensures forall x :: x in Insert(side, os, o) <==> x in os || x == o
  {
    if os != [] && !Better(side, o.price, os[0].price) {
      InsertMembers(side, os[1..], o);
    }
  }

  lemma IndexRemove(index: Index, side: Side, os: seq<Order>, other: seq<Order>, id: Id)
    requires IndexesSide(index, side, os) && IndexesSide(index, side.Opposite(), other)
    requires Distinct(os) && DisjointIds(os, other) && exists o :: o in os && o.id == id
    ensures IndexesSide(index - {id}, side, Remove(os, id))
    ensures IndexesSide(index - {id}, side.Opposite(), other)
  {
    RemoveMembers(os, id);
  }

  lemma {:induction false} RemoveMembers(os: seq<Order>, id: Id)
    requires Distinct(os)
    ensures forall x :: x in Remove(os, id) <==> x in os && x.id != id
  {
    if os != [] {
      if os[0].id == id {
        assert forall x :: x in os <==> x == os[0] || x in os[1..];
      } else {
        RemoveMembers(os[1..], id);
      }
    }
  }

  // ---------- the loop ----------

  /** The executions so far and the loop state together determine the whole sweep. */
  ghost predicate Continues(p: PlaceCommand, limit: Px, os0: seq<Order>, fills: seq<Fill>,
                            os: seq<Order>, remaining: Qty) {
    var t := Match(p, limit, os, remaining);
    Match(p, limit, os0, p.qty) == Sweep(fills + t.fills, t.rest, t.left, t.stopped)
  }

  ghost function MidSweep(s: State, p: PlaceCommand, n: nat, os: seq<Order>): State {
    s.With(p.side.Opposite(), os).(lastTrade := s.lastTrade + n, lastSeq := s.lastSeq + 2 * n)
  }

  lemma ContinuesStep(p: PlaceCommand, limit: Px, os0: seq<Order>, fills: seq<Fill>,
                      os: seq<Order>, remaining: Qty, q: Qty)
    requires os != [] && 0 < remaining && q == Min(remaining, os[0].remaining)
    requires Crosses(p.side, os[0].price, limit) && !SelfTrade(p, os[0])
    requires Continues(p, limit, os0, fills, os, remaining)
    ensures Continues(p, limit, os0, fills + [Fill(os[0], q)], TakenFront(os, q), remaining - q)
  {
  }

  lemma ContinuesStop(p: PlaceCommand, limit: Px, os0: seq<Order>, fills: seq<Fill>,
                      os: seq<Order>, remaining: Qty, stopped: bool)
    requires Continues(p, limit, os0, fills, os, remaining)
    requires if stopped then remaining > 0 && os != [] && Crosses(p.side, os[0].price, limit) && SelfTrade(p, os[0])
             else remaining == 0 || os == [] || !Crosses(p.side, os[0].price, limit)
    ensures Match(p, limit, os0, p.qty) == Sweep(fills, os, remaining, stopped)
  {
  }

  lemma {:induction false} FillEventsAppend(p: PlaceCommand, fills: seq<Fill>, f: Fill, lastTrade: nat, lastSeq: nat)
    requires FillsOk(fills) && FillsOk([f])
    ensures FillsOk(fills + [f])
    ensures FillEvents(p, fills + [f], lastTrade, lastSeq)
         == FillEvents(p, fills, lastTrade, lastSeq)
            + FillEvents(p, [f], lastTrade + |fills|, lastSeq + 2 * |fills|)
  {
    if fills == [] {
      assert fills + [f] == [f];
    } else {
      assert (fills + [f])[1..] == fills[1..] + [f];
      FillEventsAppend(p, fills[1..], f, lastTrade + 1, lastSeq + 2);
    }
  }

  lemma FillableStep(p: PlaceCommand, limit: Px, level: seq<Order>, rest: seq<Order>)
    requires level != [] && Crosses(p.side, level[0].price, limit)
    ensures SelfTrade(p, level[0]) ==> Fillable(p, limit, level + rest) == 0
    ensures !SelfTrade(p, level[0]) ==>
              Fillable(p, limit, level + rest) == level[0].remaining + Fillable(p, limit, level[1..] + rest)
  {
    assert (level + rest)[1..] == level[1..] + rest;
  }

  /** A wrapping accumulator still ends with the total modulo 2^64. */
  lemma WrapAdd(total: nat, x: nat, rest: nat)
    ensures ((total + x) % U64_MODULUS + rest) % U64_MODULUS == (total + (x + rest)) % U64_MODULUS
  {
  }

  lemma LoopStart(s: State, p: PlaceCommand, limit: Px)
    ensures Continues(p, limit, s.On(p.side.Opposite()), [], s.On(p.side.Opposite()), p.qty)
    ensures s == MidSweep(s, p, 0, s.On(p.side.Opposite()))
    ensures FillsOk([]) && FillEvents(p, [], s.lastTrade, s.lastSeq) == []
  {
  }

  lemma MidSweepStep(s: State, p: PlaceCommand, n: nat, os: seq<Order>, os': seq<Order>)
    ensures MidSweep(MidSweep(s, p, n, os), p, 1, os') == MidSweep(s, p, n + 1, os')
    ensures MidSweep(s, p, n + 1, os').On(p.side.Opposite()) == os'
    ensures MidSweep(s, p, n, os).lastTrade == s.lastTrade + n && MidSweep(s, p, n, os).lastSeq == s.lastSeq + 2 * n
  {
  }

  lemma MidSweepJoin(s: State, p: PlaceCommand, os: seq<Order>, n: nat, os': seq<Order>)
    ensures var s1 := MidSweep(s, p, 1, os);
            && MidSweep(s1, p, n, os') == MidSweep(s, p, n + 1, os') && s1.On(p.side.Opposite()) == os
            && s1.lastTrade == s.lastTrade + 1 && s1.lastSeq == s.lastSeq + 2
  {
  }

  lemma LoopEnd(s: State, p: PlaceCommand, limit: Px, fills: seq<Fill>, os: seq<Order>, remaining: Qty, stopped: bool)
    requires Good(s) && Match(p, limit, s.On(p.side.Opposite()), p.qty) == Sweep(fills, os, remaining, stopped)
    requires forall x | x in s.bids + s.asks :: x.id != p.orderId
    ensures var swept := MidSweep(s, p, |fills|, os);
            && AfterSweep(s, p, Sweep(fills, os, remaining, stopped)) == swept
            && (forall x | x in swept.bids + swept.asks :: x.id != p.orderId)
            && (!stopped && remaining > 0 && os != [] ==> !Crosses(p.side, os[0].price, limit))
  {
    hide Good, Match, MidSweep, BookOk;
    GoodSizes(s);
    SweepEnd(p, limit, s.On(p.side.Opposite()), p.qty);
    MidSweepIs(s, p, Sweep(fills, os, remaining, stopped));
    var swept := MidSweep(s, p, |fills|, os);
    forall x | x in swept.bids + swept.asks
      ensures x.id != p.orderId
    {
      if x in os {
        var y :| y in s.On(p.side.Opposite()) && y.id == x.id;
        assert y in s.bids + s.asks;
      }
    }
  }

  /** What is left was there before, and unless the sweep stopped early it does not cross. */
  lemma SweepEnd(p: PlaceCommand, limit: Px, os: seq<Order>, left: Qty)
    requires BookOk(os)
    ensures var t := Match(p, limit, os, left);
            && (t.left > 0 && !t.stopped && t.rest != [] ==> !Crosses(p.side, t.rest[0].price, limit))
            && forall x | x in t.rest :: exists y :: y in os && y.id == x.id
  {
    var k := MatchRest(p, limit, os, left);
    hide Match, Leftover;
    LeftoverIds(os, Match(p, limit, os, left).rest, k);
  }

  lemma MidSweepIs(s: State, p: PlaceCommand, sweep: Sweep)
    ensures var swept := MidSweep(s, p, |sweep.fills|, sweep.rest);
            && AfterSweep(s, p, sweep) == swept
            && forall x | x in swept.bids + swept.asks :: x in sweep.rest || x in s.bids + s.asks
  {
  }

  // ---------- queueing and unqueueing ----------

  lemma QueueKeeps(s: State, side: Side, o: Order, index: Index)
    requires Good(s) && Indexes(index, s) && o.id in s.seen && 0 < o.remaining <= o.qty
    requires forall x | x in s.bids + s.asks :: x.id != o.id
    requires s.On(side.Opposite()) != [] ==> !Crosses(side, s.On(side.Opposite())[0].price, o.price)
    ensures var s' := s.With(side, Insert(side, s.On(side), o));
            Good(s') && Indexes(index[o.id := (side, o.price)], s')
  {
    InsertKeeps(s, side, o);
    hide Good, IndexesSide;
    IndexesBySides(index, s, side);
    assert forall x | x in s.On(side) + s.On(side.Opposite()) :: x in s.bids + s.asks;
    IndexInsert(index, side, s.On(side), s.On(side.Opposite()), o);
    IndexesBySides(index[o.id := (side, o.price)], s.With(side, Insert(side, s.On(side), o)), side);
  }

  lemma UnqueueKeeps(s: State, side: Side, id: Id, index: Index)
    requires Good(s) && Indexes(index, s) && exists x :: x in s.On(side) && x.id == id
    ensures var s' := s.With(side, Remove(s.On(side), id));
            Good(s') && Indexes(index - {id}, s')
  {
    RemoveKeeps(s, side, id);
    GoodBySides(s, side);
    hide Good, IndexesSide;
    IndexesBySides(index, s, side);
    IndexRemove(index, side, s.On(side), s.On(side.Opposite()), id);
    IndexesBySides(index - {id}, s.With(side, Remove(s.On(side), id)), side);
  }

  /** The index decides what a cancel does. */
  lemma Located(s: State, index: Index, id: Id)
    requires Good(s) && Indexes(index, s)
    ensures id !in index ==> DoCancel(s, id) == Outcome(s, [])
    ensures id in index ==>
              var (side, price) := index[id];
              var found := Find(s.On(side), id);
              && found.Some? && found.value in s.On(side) && found.value.id == id && found.value.price == price
              && found.value.remaining <= found.value.qty && DoCancel(s, id) == CancelOn(s, side, found.value)
  {
    FindOk(s.bids, id);
    FindOk(s.asks, id);
  }

  lemma {:induction false} SameId(os: seq<Order>, x: Order, y: Order)
    requires Distinct(os) && x in os && y in os && x.id == y.id
    ensures x == y
  {
  }

  /** The level at the indexed price holds the order, and no other level does. */
  lemma LevelOf(s: State, side: Side, m: PriceLevels, price: Px, id: Id)
    requires Good(s) && Shape(m) && s.On(side) == Flatten(side, m)
    requires var found := Find(s.On(side), id);
             found.Some? && found.value in s.On(side) && found.value.id == id && found.value.price == price
    ensures price in m && exists x :: x in m[price] && x.id == id
    ensures forall q | q in m && q != price :: forall x | x in m[q] :: x.id != id
    ensures Find(m[price], id) == Find(s.On(side), id)
  {
    var o := Find(s.On(side), id).value;
    FlattenOneLevel(side, m, o);
    GoodBySides(s, side);
    hide Good, SideOk;
    forall q | q in m && q != price
      ensures forall x | x in m[q] :: x.id != id
    {
      forall x | x in m[q]
        ensures x.id != id
      {
        FlattenMembers(side, m, x);
        if x.id == id {
          assert Distinct(s.On(side)) by {
            GoodDistinct(s, side);
          }
          SameId(s.On(side), x, o);
        }
      }
    }
    FlattenRemove(side, m, price, id);
  }

  lemma GoodDistinct(s: State, side: Side)
    requires Good(s)
    ensures Distinct(s.On(side))
  {
    DistinctConcat(s.bids, s.asks);
  }

  lemma GoodCounters(s: State, s': State, index: Index)
    requires Good(s) && Indexes(index, s) && s' == s.(lastTrade := s'.lastTrade, lastSeq := s'.lastSeq)
    ensures Good(s') && Indexes(index, s')
  {
  }

  /** A new id is nobody's, and recording it changes nothing else. */
  lemma GoodSeen(s: State, index: Index, id: Id)
    requires Good(s) && Indexes(index, s) && id !in s.seen
    ensures Good(s.(seen := s.seen + {id})) && Indexes(index, s.(seen := s.seen + {id}))
    ensures forall x | x in s.bids + s.asks :: x.id != id
  {
  }
}
