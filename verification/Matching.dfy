/**
 * What matching means, independently of the loop: greedy consumption of the opposite list in
 * closed form, fill-or-kill exactness, and the invariant every command keeps.
 */
module Matching {
  import opened Protocol
  import opened Book

  /** Total quantity still open in a list. */
  function Open(os: seq<Order>): nat
    requires BookOk(os)
  {
    if os == [] then 0 else os[0].remaining + Open(os[1..])
  }

  lemma {:induction false} OpenSplit(a: seq<Order>, b: seq<Order>)
    requires BookOk(a) && BookOk(b)
    ensures BookOk(a + b) && Open(a + b) == Open(a) + Open(b)
  {
    if a == [] {
      assert a + b == b;
    } else {
      OpenSplit(a[1..], b);
      assert (a + b)[1..] == a[1..] + b;
    }
  }

  /** The first n orders are all within the limit and not the taker's own, and the next one is not. */
  predicate Reach(p: PlaceCommand, limit: Px, os: seq<Order>, n: nat) {
    && n <= |os|
    && (forall i :: 0 <= i < n ==> Crosses(p.side, os[i].price, limit) && !SelfTrade(p, os[i]))
    && (n < |os| ==> !Crosses(p.side, os[n].price, limit) || SelfTrade(p, os[n]))
  }

  /** Quantity the i-th order gives up: what is left after everyone served before it, capped by its own size. */
  function Share(os: seq<Order>, qty: nat, i: nat): nat
    requires BookOk(os) && i < |os|
  {
    if Open(os[..i]) >= qty then 0 else Min(os[i].remaining, qty - Open(os[..i]))
  }

  /** The loop's executions are exactly the positive shares of the reachable orders, in priority order. */
  ghost predicate Greedy(p: PlaceCommand, limit: Px, os: seq<Order>, qty: nat, n: nat, s: Sweep)
    requires BookOk(os) && n <= |os|
  {
    && s.left == qty - Min(qty, Open(os[..n]))
    && |s.fills| <= n
    && (forall i :: 0 <= i < n ==> (i < |s.fills| <==> Share(os, qty, i) > 0))
    && (forall i :: 0 <= i < |s.fills| ==> s.fills[i] == Fill(os[i], Share(os, qty, i)))
    && (s.stopped <==> n < |os| && Crosses(p.side, os[n].price, limit) && Open(os[..n]) < qty)
  }

  lemma ReachTail(p: PlaceCommand, limit: Px, os: seq<Order>, n: nat)
    requires Reach(p, limit, os, n) && 0 < n
    ensures Reach(p, limit, os[1..], n - 1)
  {
  }

  lemma OpenTail(os: seq<Order>, i: nat)
    requires BookOk(os) && i < |os|
    ensures BookOk(os[1..]) && Open(os[..i + 1]) == os[0].remaining + Open(os[1..][..i])
  {
    assert os[..i + 1][1..] == os[1..][..i];
  }

  /** Skipping a fully served head leaves everyone else's share as it was. */
  lemma ShareTail(os: seq<Order>, qty: nat, i: nat)
    requires BookOk(os) && i + 1 < |os| && os[0].remaining <= qty
    ensures BookOk(os[1..])
    ensures Share(os, qty, i + 1) == Share(os[1..], qty - os[0].remaining, i)
  {
    OpenTail(os, i);
  }

  /** One step of the sweep. */
  lemma MatchOnce(p: PlaceCommand, limit: Px, os: seq<Order>, left: Qty)
    ensures var s := Match(p, limit, os, left);
            if left == 0 || os == [] || !Crosses(p.side, os[0].price, limit) then s == Sweep([], os, left, false)
            else if SelfTrade(p, os[0]) then s == Sweep([], os, left, true)
            else if left < os[0].remaining then
              s == Sweep([Fill(os[0], left)], [os[0].(remaining := os[0].remaining - left)] + os[1..], 0, false)
            else
              var t := Match(p, limit, os[1..], left - os[0].remaining);
              s == t.(fills := [Fill(os[0], os[0].remaining)] + t.fills)
  {
  }

  /** Whether and what the i-th reachable order trades. */
  lemma {:induction false} FillAt(p: PlaceCommand, limit: Px, os: seq<Order>, qty: Qty, n: nat, i: nat)
    requires BookOk(os) && Reach(p, limit, os, n) && i < n
    ensures var s := Match(p, limit, os, qty);
            (i < |s.fills| <==> Share(os, qty, i) > 0)
            && (i < |s.fills| ==> s.fills[i] == Fill(os[i], Share(os, qty, i)))
  {
    MatchOnce(p, limit, os, qty);
    hide Match;
    if qty == 0 {
    } else if i == 0 {
      assert Open(os[..0]) == 0;
    } else if qty < os[0].remaining {
      OpenTail(os, i - 1);
    } else {
      ReachTail(p, limit, os, n);
      FillAt(p, limit, os[1..], qty - os[0].remaining, n - 1, i - 1);
      ShareTail(os, qty, i - 1);
    }
  }

  lemma {:induction false} SweepTotals(p: PlaceCommand, limit: Px, os: seq<Order>, qty: Qty, n: nat)
    requires BookOk(os) && Reach(p, limit, os, n)
    ensures var s := Match(p, limit, os, qty);
            && s.left == qty - Min(qty, Open(os[..n]))
            && |s.fills| <= n
            && (s.stopped <==> n < |os| && Crosses(p.side, os[n].price, limit) && Open(os[..n]) < qty)
  {
    MatchOnce(p, limit, os, qty);
    hide Match;
    if n == 0 {
      assert Open(os[..0]) == 0;
    } else if qty > 0 {
      OpenTail(os, n - 1);
      if qty >= os[0].remaining {
        ReachTail(p, limit, os, n);
        SweepTotals(p, limit, os[1..], qty - os[0].remaining, n - 1);
      }
    }
  }

  lemma MatchIsGreedy(p: PlaceCommand, limit: Px, os: seq<Order>, qty: Qty, n: nat)
    requires BookOk(os) && Reach(p, limit, os, n)
    ensures Greedy(p, limit, os, qty, n, Match(p, limit, os, qty))
  {
    SweepTotals(p, limit, os, qty, n);
    forall i | 0 <= i < n {
      FillAt(p, limit, os, qty, n, i);
    }
  }

  /** The rest is a suffix of the list in which only the head may have been reduced. */
  ghost predicate Leftover(os: seq<Order>, rest: seq<Order>, k: nat) {
    && k + |rest| == |os|
    && (forall i :: 0 <= i < |rest| ==> rest[i] == os[k + i].(remaining := rest[i].remaining))
    && (rest != [] ==> 0 < rest[0].remaining <= os[k].remaining)
    && (forall i :: 0 < i < |rest| ==> rest[i] == os[k + i])
  }

  lemma {:induction false} MatchRest(p: PlaceCommand, limit: Px, os: seq<Order>, qty: Qty) returns (k: nat)
    requires BookOk(os)
    ensures var s := Match(p, limit, os, qty);
            && Leftover(os, s.rest, k)
            && (s.left > 0 && !s.stopped && s.rest != [] ==> !Crosses(p.side, s.rest[0].price, limit))
  {
    MatchOnce(p, limit, os, qty);
    hide Match;
    k := 0;
    if qty == 0 || os == [] || !Crosses(p.side, os[0].price, limit) || SelfTrade(p, os[0]) {
    } else if qty < os[0].remaining {
    } else {
      var rest := Match(p, limit, os[1..], qty - os[0].remaining).rest;
      k := MatchRest(p, limit, os[1..], qty - os[0].remaining);
      LeftoverTail(os, rest, k);
      k := k + 1;
    }
  }

  lemma LeftoverTail(os: seq<Order>, rest: seq<Order>, k: nat)
    requires os != [] && Leftover(os[1..], rest, k)
    ensures Leftover(os, rest, k + 1)
  {
  }

  /** Nothing is created or lost: the list gives up exactly what the taker receives. */
  lemma {:induction false} MatchConserves(p: PlaceCommand, limit: Px, os: seq<Order>, qty: Qty)
    requires BookOk(os)
    ensures var s := Match(p, limit, os, qty);
            BookOk(s.rest) && Open(os) - Open(s.rest) == qty - s.left
  {
    MatchOnce(p, limit, os, qty);
    hide Match;
    if qty == 0 || os == [] || !Crosses(p.side, os[0].price, limit) || SelfTrade(p, os[0]) {
    } else if qty < os[0].remaining {
      var head := os[0].(remaining := os[0].remaining - qty);
      assert ([head] + os[1..])[1..] == os[1..];
    } else {
      MatchConserves(p, limit, os[1..], qty - os[0].remaining);
    }
  }

  // ---------- fill or kill ----------

  lemma {:induction false} FillableIsReach(p: PlaceCommand, limit: Px, os: seq<Order>) returns (n: nat)
    requires BookOk(os)
    ensures Reach(p, limit, os, n) && Fillable(p, limit, os) == Open(os[..n])
  {
    if os == [] || !Crosses(p.side, os[0].price, limit) || SelfTrade(p, os[0]) {
      n := 0;
    } else {
      n := FillableIsReach(p, limit, os[1..]);
      OpenTail(os, n);
      assert os[..n + 1][1..] == os[1..][..n];
      n := n + 1;
    }
  }

  /** The unbounded fill-or-kill sum predicts the loop exactly, self-trade cut-off included. */
  lemma FillablePredictsLoop(p: PlaceCommand, limit: Px, os: seq<Order>)
    requires BookOk(os) && 0 < p.qty
    ensures var s := Match(p, limit, os, p.qty);
            (Fillable(p, limit, os) >= p.qty <==> s.left == 0) && (s.left == 0 ==> !s.stopped)
  {
    var n := FillableIsReach(p, limit, os);
    SweepTotals(p, limit, os, p.qty, n);
  }

  /** A fill-or-kill order that is accepted ends filled for its whole quantity, even when the sum wrapped;
      one that is refused leaves both lists alone. */
  lemma FillOrKillAllOrNothing(s: State, p: PlaceCommand)
    requires Good(s) && p.tif.Fok? && p.orderId !in s.seen
    ensures var r := DoPlace(s, p);
            var u := r.events[|r.events| - 1].kind;
            && u.OrderChanged? && u.update.orderId == p.orderId
            && (if u.update.status.Filled? then
                  u.update.filledQty == p.qty && r.state.On(p.side) == s.On(p.side)
                else
                  u.update.status.Rejected? && u.update.filledQty == 0 && |r.events| == 1
                  && r.state.bids == s.bids && r.state.asks == s.asks && r.state.lastTrade == s.lastTrade)
  {
    hide Match, Fillable, Good, Insert;
    GoodSizes(s);
    var os := s.On(p.side.Opposite());
    if Admit(p, os).Some? {
      AdmittedFok(p, os);
      FillablePredictsLoop(p, LimitOf(p), os);
    }
  }

  lemma GoodSizes(s: State)
    requires Good(s)
    ensures BookOk(s.bids) && BookOk(s.asks)
  {
  }

  /** Whoever passes the check has enough, wrapped or not. */
  lemma AdmittedFok(p: PlaceCommand, os: seq<Order>)
    requires p.tif.Fok? && Admit(p, os).Some?
    ensures 0 < p.qty <= Fillable(p, LimitOf(p), os)
  {
  }

  /** Everything about the order except the book is acceptable. */
  predicate WellFormedFok(p: PlaceCommand) {
    && p.tif.Fok? && !p.postOnly && 0 < p.qty
    && (if p.orderType.Limit? then p.price.Some? && 0 < p.price.value else p.price.None?)
  }

  /** The 64-bit sum wrapped to something smaller than the order. */
  predicate FokSumWraps(p: PlaceCommand, os: seq<Order>) {
    var f := Fillable(p, LimitOf(p), os);
    U64_MODULUS <= f && f % U64_MODULUS < p.qty
  }

  /** The pre-check refuses exactly the orders the loop would not complete, unless the sum wrapped. */
  lemma FokRefusalExact(s: State, p: PlaceCommand)
    requires Good(s) && WellFormedFok(p)
    ensures var os := s.On(p.side.Opposite());
            (Admit(p, os).Some? <==> Match(p, LimitOf(p), os, p.qty).left == 0) <==> !FokSumWraps(p, os)
  {
    FillablePredictsLoop(p, LimitOf(p), s.On(p.side.Opposite()));
  }

  // ---------- the invariant every command keeps ----------

  lemma {:induction false} InsertAt(side: Side, os: seq<Order>, o: Order) returns (j: nat)
    requires Sorted(side, os)
    ensures j <= |os| && Insert(side, os, o) == os[..j] + [o] + os[j..]
    ensures forall i :: 0 <= i < j ==> !Better(side, o.price, os[i].price)
    ensures j < |os| ==> Better(side, o.price, os[j].price)
  {
    j := 0;
    if os == [] || Better(side, o.price, os[0].price) {
    } else {
      j := InsertAt(side, os[1..], o);
      j := j + 1;
      assert os[..j] == [os[0]] + os[1..][..j - 1];
    }
  }

  /** Time priority: behind everyone at the same or a better price, ahead of everyone at a worse one. */
  lemma InsertSorted(side: Side, os: seq<Order>, o: Order)
    requires Sorted(side, os)
    ensures Sorted(side, Insert(side, os, o))
  {
    var j := InsertAt(side, os, o);
    var r := Insert(side, os, o);
    forall i, k | 0 <= i < k < |r|
      ensures !Better(side, r[k].price, r[i].price)
    {
      assert k > j ==> r[k] == os[k - 1];
      assert i < j ==> r[i] == os[i];
      assert i > j ==> r[i] == os[i - 1];
      if i == j {
        assert k - 1 > j ==> !Better(side, os[k - 1].price, os[j].price);
      }
    }
  }

  ghost predicate DisjointIds(a: seq<Order>, b: seq<Order>) {
    forall x, y :: x in a && y in b ==> x.id != y.id
  }

  lemma DistinctConcat(a: seq<Order>, b: seq<Order>)
    ensures Distinct(a + b) <==> Distinct(a) && Distinct(b) && DisjointIds(a, b)
  {
    var c := a + b;
    if Distinct(c) {
      assert forall i :: 0 <= i < |a| ==> a[i] == c[i];
      assert forall i :: 0 <= i < |b| ==> b[i] == c[|a| + i];
    }
  }

  /** Seen ids, sizes, order and distinctness on one side, and against the other side's list. */
  ghost predicate SideOk(side: Side, os: seq<Order>, other: seq<Order>, seen: set<Id>) {
    BookOk(os) && Sorted(side, os) && Distinct(os) && DisjointIds(os, other) && forall o | o in os :: o.id in seen
  }

  lemma GoodBySides(s: State, side: Side)
    ensures Good(s) <==>
            (&& SideOk(side, s.On(side), s.On(side.Opposite()), s.seen)
             && SideOk(side.Opposite(), s.On(side.Opposite()), s.On(side), s.seen)
             && Uncrossed(s.bids, s.asks))
  {
    DistinctConcat(s.bids, s.asks);
  }

  lemma LeftoverOk(side: Side, os: seq<Order>, rest: seq<Order>, k: nat, other: seq<Order>, seen: set<Id>)
    requires SideOk(side, os, other, seen) && Leftover(os, rest, k) && BookOk(rest)
    ensures SideOk(side, rest, other, seen)
    ensures rest != [] ==> !Better(side, rest[0].price, os[0].price)
  {
  }

  lemma InsertOk(side: Side, os: seq<Order>, o: Order, other: seq<Order>, seen: set<Id>)
    requires SideOk(side, os, other, seen)
    requires 0 < o.remaining <= o.qty && o.id in seen
    requires forall x | x in os + other :: x.id != o.id
    ensures SideOk(side, Insert(side, os, o), other, seen)
    ensures Insert(side, os, o)[0] == o || (os != [] && Insert(side, os, o)[0] == os[0])
  {
    var j := InsertAt(side, os, o);
    InsertSorted(side, os, o);
    var r := Insert(side, os, o);
    DistinctInsert(os, o, j, r);
    assert forall x :: x in r ==> x in os || x == o;
  }

  lemma DistinctInsert(os: seq<Order>, o: Order, j: nat, r: seq<Order>)
    requires Distinct(os) && j <= |os| && r == os[..j] + [o] + os[j..]
    requires forall x | x in os :: x.id != o.id
    ensures Distinct(r)
  {
  }

  lemma {:induction false} RemoveAt(os: seq<Order>, id: Id) returns (j: nat)
    requires exists o :: o in os && o.id == id
    ensures j < |os| && os[j].id == id && Remove(os, id) == os[..j] + os[j + 1..]
    ensures Find(os, id) == Some(os[j])
  {
    j := 0;
    if os[0].id != id {
      assert exists o :: o in os[1..] && o.id == id;
      j := RemoveAt(os[1..], id);
      j := j + 1;
      assert os[..j] == [os[0]] + os[1..][..j - 1];
    }
  }

  lemma RemoveOk(side: Side, os: seq<Order>, id: Id, other: seq<Order>, seen: set<Id>)
    requires SideOk(side, os, other, seen) && exists o :: o in os && o.id == id
    ensures SideOk(side, Remove(os, id), other, seen)
    ensures Remove(os, id) != [] ==> !Better(side, Remove(os, id)[0].price, os[0].price)
    ensures forall o | o in Remove(os, id) :: o in os && o.id != id
  {
  }

  // ---------- every command keeps the book well formed ----------

  lemma SweepKeeps(s: State, p: PlaceCommand, limit: Px)
    requires Good(s)
    ensures Good(AfterSweep(s, p, Match(p, limit, s.On(p.side.Opposite()), p.qty)))
  {
    var opp := p.side.Opposite();
    var os := s.On(opp);
    var sweep := Match(p, limit, os, p.qty);
    var s' := AfterSweep(s, p, sweep);
    GoodBySides(s, opp);
    MatchBounds(p, limit, os, p.qty);
    var k := MatchRest(p, limit, os, p.qty);
    LeftoverOk(opp, os, sweep.rest, k, s.On(p.side), s.seen);
    LeftoverIds(os, sweep.rest, k);
    assert s'.On(opp) == sweep.rest && s'.On(p.side) == s.On(p.side);
    GoodBySides(s', opp);
  }

  lemma LeftoverIds(os: seq<Order>, rest: seq<Order>, k: nat)
    requires Leftover(os, rest, k)
    ensures forall x | x in rest :: exists y :: y in os && y.id == x.id
  {
  }

  /** An order joins the book only where nothing on the other side reaches it, so it stays uncrossed. */
  lemma InsertKeeps(s: State, side: Side, o: Order)
    requires Good(s) && o.id in s.seen && 0 < o.remaining <= o.qty
    requires forall x | x in s.bids + s.asks :: x.id != o.id
    requires s.On(side.Opposite()) != [] ==> !Crosses(side, s.On(side.Opposite())[0].price, o.price)
    ensures Good(s.With(side, Insert(side, s.On(side), o)))
  {
    var s' := s.With(side, Insert(side, s.On(side), o));
    var opp := s.On(side.Opposite());
    GoodBySides(s, side);
    InsertOk(side, s.On(side), o, opp, s.seen);
    assert DisjointIds(opp, s'.On(side)) by {
      var j := InsertAt(side, s.On(side), o);
    }
    GoodBySides(s', side);
  }

  lemma RestKeeps(s: State, p: PlaceCommand, limit: Px, sweep: Sweep)
    requires Good(s) && p.orderId in s.seen && sweep.left <= p.qty
    requires forall x | x in s.bids + s.asks :: x.id != p.orderId
    requires Rests(p, sweep) && s.On(p.side.Opposite()) != [] ==>
               !Crosses(p.side, s.On(p.side.Opposite())[0].price, limit)
    ensures Good(Conclude(s, p, limit, sweep))
  {
    if Rests(p, sweep) {
      InsertKeeps(s.(lastSeq := s.lastSeq + 1), p.side, TakerOrder(p, limit, sweep.left));
    }
  }

  lemma RemoveKeeps(s: State, side: Side, id: Id)
    requires Good(s) && exists o :: o in s.On(side) && o.id == id
    ensures Good(s.With(side, Remove(s.On(side), id)))
  {
    GoodBySides(s, side);
    RemoveOk(side, s.On(side), id, s.On(side.Opposite()), s.seen);
    GoodBySides(s.With(side, Remove(s.On(side), id)), side);
  }

  lemma PlaceKeeps(s: State, p: PlaceCommand)
    requires Good(s)
    ensures Good(DoPlace(s, p).state)
  {
    if p.orderId !in s.seen {
      var s' := s.(seen := s.seen + {p.orderId});
      var os := s'.On(p.side.Opposite());
      if Admit(p, os).Some? {
        var limit := LimitOf(p);
        var sweep := Match(p, limit, os, p.qty);
        MatchBounds(p, limit, os, p.qty);
        SweepKeeps(s', p, limit);
        var k := MatchRest(p, limit, os, p.qty);
        LeftoverIds(os, sweep.rest, k);
        RestKeeps(AfterSweep(s', p, sweep), p, limit, sweep);
      }
    }
  }

  lemma CancelKeeps(s: State, id: Id)
    requires Good(s)
    ensures Good(DoCancel(s, id).state)
  {
    FindOk(s.bids, id);
    FindOk(s.asks, id);
    if Find(s.bids, id).Some? {
      RemoveKeeps(s, Bid, id);
    } else if Find(s.asks, id).Some? {
      RemoveKeeps(s, Ask, id);
    }
  }

  /** No command can cross the book, lose priority order, duplicate an id or leave an empty order behind. */
  lemma StepKeeps(s: State, cmd: Command)
    requires Good(s)
    ensures Good(Step(s, cmd).state)
  {
    match cmd
    case Place(p) => PlaceKeeps(s, p);
    case Cancel(c) => CancelKeeps(s, c.orderId);
  }
}
