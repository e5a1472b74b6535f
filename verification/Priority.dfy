/**
 * Price-time priority over whole runs: the book's list order is price first and arrival in the log second,
 * and a taker reaches an order only after everything ahead of it is used up.
 */
module Priority {
  import opened Protocol
  import opened Book
  import opened Matching
  import opened History
  import opened Duplicates

  type Arrivals = map<Id, nat>

  /** When each order was first placed, as a position in the log. */
  function Arrival(log: seq<Command>): Arrivals {
    if log == [] then map[]
    else
      var a := Arrival(log[..|log| - 1]);
      var last := log[|log| - 1];
      if last.Place? && last.place.orderId !in a then a[last.place.orderId := |log| - 1] else a
  }

  lemma {:induction false} ArrivalIsKnown(log: seq<Command>)
    ensures Arrival(log).Keys == Known(log).Keys && forall id | id in Arrival(log) :: Arrival(log)[id] < |log|
  {
    if log != [] {
      ArrivalIsKnown(log[..|log| - 1]);
    }
  }

  /** At the same price, whoever came first stands first. */
  predicate Fifo(os: seq<Order>, a: Arrivals) {
    && (forall i :: 0 <= i < |os| ==> os[i].id in a)
    && forall i, j :: 0 <= i < j < |os| && os[i].price == os[j].price ==> a[os[i].id] < a[os[j].id]
  }

  lemma LeftoverFifo(os: seq<Order>, rest: seq<Order>, k: nat, a: Arrivals)
    requires Fifo(os, a) && Leftover(os, rest, k)
    ensures Fifo(rest, a)
  {
    assert forall i :: 0 <= i < |rest| ==> rest[i].id == os[k + i].id && rest[i].price == os[k + i].price;
  }

  lemma RemoveFifo(os: seq<Order>, id: Id, a: Arrivals)
    requires Fifo(os, a) && exists o :: o in os && o.id == id
    ensures Fifo(Remove(os, id), a)
  {
    hide Remove;
    var j := RemoveAt(os, id);
    WithoutOne(os, j, a);
  }

  lemma WithoutOne(os: seq<Order>, j: nat, a: Arrivals)
    requires Fifo(os, a) && j < |os|
    ensures Fifo(os[..j] + os[j + 1..], a)
  {
  }

  /** A newcomer stands behind everyone at its price. */
  lemma InsertFifo(side: Side, os: seq<Order>, o: Order, a: Arrivals, t: nat)
    requires Sorted(side, os) && Fifo(os, a) && o.id !in a && forall id | id in a :: a[id] < t
    ensures Fifo(Insert(side, os, o), a[o.id := t])
  {
    hide Insert;
    var j := InsertAt(side, os, o);
    var r := Insert(side, os, o);
    assert forall i :: 0 <= i < |r| ==> r[i] == if i < j then os[i] else if i == j then o else os[i - 1];
    assert forall k :: j <= k < |os| ==> os[k].price != o.price;
  }

  lemma GrownFifo(os: seq<Order>, a: Arrivals, id: Id, t: nat)
    requires Fifo(os, a) && id !in a
    ensures Fifo(os, a[id := t])
  {
  }

  ghost predicate BothFifo(s: State, a: Arrivals) {
    Fifo(s.bids, a) && Fifo(s.asks, a)
  }

  lemma PlaceFifo(s: State, p: PlaceCommand, a: Arrivals, t: nat)
    requires Good(s) && BothFifo(s, a) && p.orderId !in a && p.orderId !in s.seen && forall id | id in a :: a[id] < t
    ensures BothFifo(DoPlace(s, p).state, a[p.orderId := t])
  {
    hide Good, Fifo, Match, FillEvents, Insert, Execute, Fillable, WouldCross;
    var os, mine := s.On(p.side.Opposite()), s.On(p.side);
    GrownFifo(os, a, p.orderId, t);
    GrownFifo(mine, a, p.orderId, t);
    GoodSizes(s);
    if Admit(p, os).Some? {
      var sweep := Match(p, LimitOf(p), os, p.qty);
      SweptFifo(p, os, a[p.orderId := t]);
      SortedSide(s, p.side);
      InsertFifo(p.side, mine, TakerOrder(p, LimitOf(p), sweep.left), a, t);
      ExecuteLists(s.(seen := s.seen + {p.orderId}), p);
    }
  }

  lemma SweptFifo(p: PlaceCommand, os: seq<Order>, a: Arrivals)
    requires BookOk(os) && Fifo(os, a)
    ensures Fifo(Match(p, LimitOf(p), os, p.qty).rest, a)
  {
    var k := MatchRest(p, LimitOf(p), os, p.qty);
    LeftoverFifo(os, Match(p, LimitOf(p), os, p.qty).rest, k, a);
  }

  lemma SortedSide(s: State, side: Side)
    requires Good(s)
    ensures Sorted(side, s.On(side))
  {
  }

  /** What execution leaves on the two sides. */
  lemma ExecuteLists(s: State, p: PlaceCommand)
    requires BookOk(s.On(p.side.Opposite()))
    ensures var sweep := Match(p, LimitOf(p), s.On(p.side.Opposite()), p.qty);
            var s' := Execute(s, p, LimitOf(p)).state;
            && s'.On(p.side.Opposite()) == sweep.rest
            && (s'.On(p.side) == s.On(p.side)
                || s'.On(p.side) == Insert(p.side, s.On(p.side), TakerOrder(p, LimitOf(p), sweep.left)))
  {
    hide Match, FillEvents, Insert;
  }

  lemma CancelFifo(s: State, id: Id, a: Arrivals)
    requires Good(s) && BothFifo(s, a)
    ensures BothFifo(DoCancel(s, id).state, a)
  {
    hide Good, Fifo;
    GoodSizes(s);
    FindOk(s.bids, id);
    FindOk(s.asks, id);
    if Find(s.bids, id).Some? {
      RemoveFifo(s.bids, id, a);
    } else if Find(s.asks, id).Some? {
      RemoveFifo(s.asks, id, a);
    }
  }

  lemma {:induction false} RunFifo(log: seq<Command>)
    ensures BothFifo(After(log), Arrival(log))
  {
    if log != [] {
      var front, last := log[..|log| - 1], log[|log| - 1];
      RunFifo(front);
      SeenIsKnown(front);
      ArrivalIsKnown(front);
      hide Good, BothFifo, DoPlace, DoCancel;
      match last
      case Place(p) =>
        if p.orderId !in Arrival(front) {
          PlaceFifo(After(front), p, Arrival(front), |front|);
        } else {
          SeenAlready(After(front), p);
        }
      case Cancel(c) => CancelFifo(After(front), c.orderId, Arrival(front));
    }
  }

  /** Served first: the better price, or the earlier arrival at the same price. */
  predicate Ahead(side: Side, x: Order, y: Order, a: Arrivals) {
    Better(side, x.price, y.price) || (x.price == y.price && x.id in a && y.id in a && a[x.id] < a[y.id])
  }

  /** In every reachable book the list order is exactly this priority. */
  lemma PriorityOrder(log: seq<Command>, side: Side, i: nat, j: nat)
    requires i < |After(log).On(side)| && j < |After(log).On(side)|
    ensures Ahead(side, After(log).On(side)[i], After(log).On(side)[j], Arrival(log)) <==> i < j
  {
    RunFifo(log);
    var s := After(log);
    GoodBySides(s, side);
    hide After, Good, Arrival;
    var os := s.On(side);
    assert Sorted(side, os) && Fifo(os, Arrival(log));
  }

  lemma {:induction false} OpenPrefix(os: seq<Order>, i: nat, j: nat)
    requires BookOk(os) && i < j <= |os|
    ensures Matching.Open(os[..i]) + os[i].remaining <= Matching.Open(os[..j])
    decreases j
  {
    assert os[..j] == os[..j - 1] + [os[j - 1]];
    OpenSplit(os[..j - 1], [os[j - 1]]);
    if i < j - 1 {
      OpenPrefix(os, i, j - 1);
    }
  }

  /** Whoever is filled, everyone ahead is filled completely in the same command. */
  lemma ServedInTurn(p: PlaceCommand, limit: Px, os: seq<Order>, qty: Qty, i: nat, j: nat)
    requires BookOk(os) && i < j < |os|
    requires j < |Match(p, limit, os, qty).fills|
    ensures var fills := Match(p, limit, os, qty).fills;
            fills[i] == Fill(os[i], os[i].remaining) && fills[j].maker == os[j]
  {
    var n := FillableIsReach(p, limit, os);
    SweepTotals(p, limit, os, qty, n);
    FillAt(p, limit, os, qty, n, i);
    FillAt(p, limit, os, qty, n, j);
    OpenPrefix(os, i, j);
  }

  /** Over whole runs: when a place command trades with y, every order ahead of y on that side of the book, by
      price and then by arrival, is used up by the same command. */
  lemma PriceTimePriority(log: seq<Command>, p: PlaceCommand, x: Order, y: Order, f: Fill)
    requires var s := After(log); var os := s.On(p.side.Opposite());
             && x in os && y in os && Ahead(p.side.Opposite(), x, y, Arrival(log))
             && f in Match(p, LimitOf(p), os, p.qty).fills && f.maker == y
    ensures Fill(x, x.remaining) in Match(p, LimitOf(p), After(log).On(p.side.Opposite()), p.qty).fills
  {
    var side := p.side.Opposite();
    var os := After(log).On(side);
    GoodBySides(After(log), side);
    var fills := Match(p, LimitOf(p), os, p.qty).fills;
    var i :| 0 <= i < |os| && os[i] == x;
    var j :| 0 <= j < |os| && os[j] == y;
    var k :| 0 <= k < |fills| && fills[k] == f;
    PriorityOrder(log, side, i, j);
    var n := FillableIsReach(p, LimitOf(p), os);
    SweepTotals(p, LimitOf(p), os, p.qty, n);
    FillAt(p, LimitOf(p), os, p.qty, n, k);
    assert os[k].id == os[j].id;
    hide Match, After, Good, Ahead;
    ServedInTurn(p, LimitOf(p), os, p.qty, i, j);
  }
}
