/**
 * One side of the book as the engine stores it: a sorted map from price to a queue of orders,
 * and its reading as a flat list.
 */
module Levels {
  import opened Protocol
  import opened Book

  type PriceLevels = map<Px, seq<Order>>

  lemma {:induction false} BestExists(side: Side, prices: set<Px>)
    requires prices != {}
    ensures exists b :: b in prices && forall q | q in prices :: !Better(side, q, b)
  {
    var x :| x in prices;
    var rest := prices - {x};
    assert forall q | q in prices :: q == x || q in rest;
    if rest == {} {
      assert x in prices && forall q | q in prices :: !Better(side, q, x);
    } else {
      BestExists(side, rest);
      var b :| b in rest && forall q | q in rest :: !Better(side, q, b);
      BetterOf(side, prices, x, b);
    }
  }

  lemma BetterOf(side: Side, prices: set<Px>, x: Px, b: Px)
    requires x in prices && b in prices && forall q | q in prices :: q == x || !Better(side, q, b)
    ensures exists c :: c in prices && forall q | q in prices :: !Better(side, q, c)
  {
    var c := if Better(side, x, b) then x else b;
    forall q | q in prices
      ensures !Better(side, q, c)
    {
    }
  }

  /** First key in priority order: the lowest ask or the highest bid. */
  function Best(side: Side, prices: set<Px>): (b: Px)
    requires prices != {}
    ensures b in prices && forall q | q in prices :: !Better(side, q, b)
  {
    BestExists(side, prices);
    var b :| b in prices && forall q | q in prices :: !Better(side, q, b);
    b
  }

  /** Every stored level is a non-empty queue of orders at its own price. */
  ghost predicate Shape(m: PriceLevels) {
    forall px | px in m :: m[px] != [] && forall o | o in m[px] :: o.price == px
  }

  ghost function Flatten(side: Side, m: PriceLevels): seq<Order>
    decreases m.Keys
  {
    if m == map[] then []
    else
      var px := Best(side, m.Keys);
      m[px] + Flatten(side, m - {px})
  }

  lemma {:induction false} FlattenMembers(side: Side, m: PriceLevels, o: Order)
    ensures o in Flatten(side, m) <==> exists px :: px in m && o in m[px]
    decreases m.Keys
  {
    if m != map[] {
      var px := Best(side, m.Keys);
      FlattenMembers(side, m - {px}, o);
      if o in Flatten(side, m - {px}) {
        var q :| q in m - {px} && o in (m - {px})[q];
        assert q in m && o in m[q];
      }
      if exists q :: q in m && o in m[q] {
        var q :| q in m && o in m[q];
        if q != px {
          assert q in m - {px} && o in (m - {px})[q];
        }
      }
    }
  }

  lemma FlattenOneLevel(side: Side, m: PriceLevels, o: Order)
    requires Shape(m) && o in Flatten(side, m)
    ensures o.price in m && o in m[o.price]
  {
  }

  /** Replacing the best level by another non-empty queue, or removing it. */
  lemma FlattenBest(side: Side, m: PriceLevels, px: Px, level: seq<Order>)
    requires m != map[] && px == Best(side, m.Keys)
    ensures Flatten(side, m) == m[px] + Flatten(side, m - {px})
    ensures Flatten(side, m[px := level]) == level + Flatten(side, m - {px})
  {
    var m' := m[px := level];
    assert m'.Keys == m.Keys;
    assert m' - {px} == m - {px};
    assert Best(side, m'.Keys) == px;
  }

  /** The best level's front order is the front of the flat list. */
  lemma FlattenHead(side: Side, m: PriceLevels)
    requires Shape(m)
    ensures m == map[] <==> Flatten(side, m) == []
    ensures m != map[] ==> m[Best(side, m.Keys)] != [] && Flatten(side, m)[0] == m[Best(side, m.Keys)][0]
  {
  }

  function Level(m: PriceLevels, px: Px): seq<Order> {
    if px in m then m[px] else []
  }

  /** What storing a queue at a price means: an empty queue is not kept. */
  function Put(m: PriceLevels, px: Px, level: seq<Order>): PriceLevels {
    if level == [] then m - {px} else m[px := level]
  }

  lemma {:induction false} InsertPast(side: Side, a: seq<Order>, b: seq<Order>, o: Order)
    requires forall x | x in a :: !Better(side, o.price, x.price)
    ensures Insert(side, a + b, o) == a + Insert(side, b, o)
  {
    if a == [] {
      assert a + b == b;
    } else {
      assert (a + b)[1..] == a[1..] + b;
      InsertPast(side, a[1..], b, o);
    }
  }

  /** Queueing an order at its price is inserting it into the flat list. */
  lemma {:induction false} FlattenInsert(side: Side, m: PriceLevels, o: Order)
    requires Shape(m)
    ensures Flatten(side, m[o.price := Level(m, o.price) + [o]]) == Insert(side, Flatten(side, m), o)
    decreases m.Keys
  {
    hide Flatten, Insert;
    if m == map[] {
      assert Level(m, o.price) + [o] == [o];
      InsertFirst(side, o);
    } else if Better(side, o.price, Best(side, m.Keys)) {
      NewBest(side, m, o);
      InsertFront(side, m, o);
    } else if o.price == Best(side, m.Keys) {
      QueueAtBest(side, m, o);
    } else {
      var px := Best(side, m.Keys);
      FlattenInsert(side, m - {px}, o);
      InsertPast(side, m[px], Flatten(side, m - {px}), o);
      QueueBehind(side, m, o);
      FlattenBest(side, m, px, m[px]);
    }
  }

  lemma InsertFirst(side: Side, o: Order)
    ensures Flatten(side, map[o.price := [o]]) == Insert(side, Flatten(side, map[]), o)
  {
    var m: PriceLevels := map[o.price := [o]];
    assert m.Keys == {o.price} && m - {o.price} == map[];
    assert Flatten(side, m) == [o] + Flatten(side, map[]);
  }

  lemma InsertFront(side: Side, m: PriceLevels, o: Order)
    requires Shape(m) && m != map[] && Better(side, o.price, Best(side, m.Keys))
    ensures Insert(side, Flatten(side, m), o) == [o] + Flatten(side, m)
  {
    FlattenHead(side, m);
    hide Flatten;
  }

  lemma QueueAtBest(side: Side, m: PriceLevels, o: Order)
    requires Shape(m) && m != map[] && o.price == Best(side, m.Keys)
    ensures Flatten(side, m[o.price := Level(m, o.price) + [o]]) == Insert(side, Flatten(side, m), o)
  {
    hide Flatten;
    var px, rest := o.price, Flatten(side, m - {o.price});
    FlattenBest(side, m, px, m[px] + [o]);
    FlattenTailWorse(side, m);
    InsertPast(side, m[px], rest, o);
    assert Insert(side, rest, o) == [o] + rest;
    assert (m[px] + [o]) + rest == m[px] + ([o] + rest);
  }

  lemma QueueBehind(side: Side, m: PriceLevels, o: Order)
    requires m != map[] && Better(side, Best(side, m.Keys), o.price)
    ensures var px := Best(side, m.Keys);
            var n := m - {px};
            Flatten(side, m[o.price := Level(m, o.price) + [o]])
            == m[px] + Flatten(side, n[o.price := Level(n, o.price) + [o]])
  {
    var px := Best(side, m.Keys);
    var n := m - {px};
    var m' := m[o.price := Level(m, o.price) + [o]];
    assert m'.Keys == m.Keys + {o.price} && Best(side, m'.Keys) == px;
    assert m' - {px} == n[o.price := Level(n, o.price) + [o]];
  }

  lemma InsertShape(m: PriceLevels, o: Order)
    requires Shape(m)
    ensures Shape(m[o.price := Level(m, o.price) + [o]])
  {
  }

  lemma NewBest(side: Side, m: PriceLevels, o: Order)
    requires Shape(m) && m != map[] && Better(side, o.price, Best(side, m.Keys))
    ensures Flatten(side, m[o.price := Level(m, o.price) + [o]]) == [o] + Flatten(side, m)
  {
    assert o.price !in m;
    assert Level(m, o.price) + [o] == [o];
    var m' := m[o.price := [o]];
    assert m'.Keys == m.Keys + {o.price};
    assert Best(side, m'.Keys) == o.price;
    assert m' - {o.price} == m;
  }

  lemma FlattenTailWorse(side: Side, m: PriceLevels)
    requires Shape(m) && m != map[]
    ensures var px := Best(side, m.Keys);
            forall x | x in Flatten(side, m - {px}) :: Better(side, px, x.price)
  {
    var px := Best(side, m.Keys);
    forall x | x in Flatten(side, m - {px})
      ensures Better(side, px, x.price)
    {
      FlattenOneLevel(side, m - {px}, x);
    }
  }

  lemma {:induction false} RemovePast(a: seq<Order>, b: seq<Order>, id: Id)
    requires forall x | x in a :: x.id != id
    ensures Remove(a + b, id) == a + Remove(b, id) && Find(a + b, id) == Find(b, id)
  {
    if a == [] {
      assert a + b == b;
    } else {
      assert (a + b)[1..] == a[1..] + b;
      RemovePast(a[1..], b, id);
    }
  }

  lemma {:induction false} RemoveWithin(a: seq<Order>, b: seq<Order>, id: Id)
    requires exists x :: x in a && x.id == id
    ensures Remove(a + b, id) == Remove(a, id) + b && Find(a + b, id) == Find(a, id)
  {
    assert (a + b)[0] == a[0];
    if a[0].id == id {
      assert (a + b)[1..] == a[1..] + b;
    } else {
      assert (a + b)[1..] == a[1..] + b;
      assert exists x :: x in a[1..] && x.id == id;
      RemoveWithin(a[1..], b, id);
    }
  }

  /** Taking an order out of its level is taking it out of the flat list. */
  lemma {:induction false} FlattenRemove(side: Side, m: PriceLevels, px: Px, id: Id)
    requires Shape(m) && px in m && exists x :: x in m[px] && x.id == id
    requires forall q | q in m && q != px :: forall x | x in m[q] :: x.id != id
    ensures Flatten(side, Put(m, px, Remove(m[px], id))) == Remove(Flatten(side, m), id)
    ensures Find(Flatten(side, m), id) == Find(m[px], id)
    decreases m.Keys
  {
    var best := Best(side, m.Keys);
    var n := m - {best};
    FlattenBest(side, m, best, m[best]);
    if best == px {
      var level := Remove(m[px], id);
      FlattenBest(side, m, px, level);
      RemoveWithin(m[px], Flatten(side, n), id);
    } else {
      FlattenRemove(side, n, px, id);
      RemovePast(m[best], Flatten(side, n), id);
      PutBehind(side, m, px, Remove(m[px], id));
    }
  }

  lemma RemoveShape(m: PriceLevels, px: Px, id: Id)
    requires Shape(m) && px in m
    ensures Shape(Put(m, px, Remove(m[px], id)))
  {
    RemoveSubset(m[px], id);
  }

  lemma {:induction false} RemoveSubset(os: seq<Order>, id: Id)
    ensures forall x :: x in Remove(os, id) ==> x in os
  {
    if os != [] && os[0].id != id {
      RemoveSubset(os[1..], id);
    }
  }

  lemma PutBehind(side: Side, m: PriceLevels, px: Px, level: seq<Order>)
    requires px in m && px != Best(side, m.Keys)
    ensures var best := Best(side, m.Keys);
            Flatten(side, Put(m, px, level)) == m[best] + Flatten(side, Put(m - {best}, px, level))
  {
    var best := Best(side, m.Keys);
    var m' := Put(m, px, level);
    assert m' - {best} == Put(m - {best}, px, level);
    assert best in m' && m'.Keys <= m.Keys;
    assert Best(side, m'.Keys) == best;
  }

}
