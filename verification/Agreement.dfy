/**
 * The replica agrees with the engine: after every command's batch the replica's resting orders and level
 * totals are exactly the book's, and the reported level changes turn the old depth into the new one.
 */
module Agreement {
  import opened Protocol
  import opened Book
  import opened Levels
  import opened Matching
  import opened EngineState
  import opened History
  import opened Duplicates
  import opened Delivery
  import opened Replica
  import opened Sums

  /** Quantity open at a price. */
  function Total(os: seq<Order>, px: Px): nat {
    if os == [] then 0
    else (if os[0].price == px && os[0].remaining > 0 then os[0].remaining else 0) + Total(os[1..], px)
  }

  predicate Fits(os: seq<Order>) {
    forall px: Px :: Total(os, px) < U64_MODULUS
  }

  /** A level is stored exactly when something is open there, with the right total. */
  ghost predicate DepthAgrees(d: Depth, os: seq<Order>) {
    forall px: Px :: Get(d, px) == Total(os, px) && (px in d ==> d[px] > 0)
  }

  ghost predicate RestingAgrees(resting: map<Id, RestingOrder>, os: seq<Order>) {
    && (forall o | o in os :: o.id in resting && resting[o.id] == RestingOrder(o.price, o.remaining))
    && (forall id | id in resting :: exists o :: o in os && o.id == id)
  }

  ghost predicate Agrees(v: View, s: State) {
    && v.lastSeq == s.lastSeq
    && RestingAgrees(v.resting, s.bids + s.asks)
    && DepthAgrees(v.bidDepth, s.bids) && DepthAgrees(v.askDepth, s.asks)
  }

  /** The price levels of a list. */
  function Prices(os: seq<Order>): set<Px> {
    set o | o in os :: o.price
  }

  function MergeLevel(d: Depth, l: ChangedLevel): Depth {
    if l.total == 0 then d - {l.price} else d[l.price := l.total]
  }

  /** Both sides' depth, as a subscriber keeps it. */
  datatype Ladder = Ladder(bids: Depth, asks: Depth) {
    function On(side: Side): Depth {
      if side.Bid? then bids else asks
    }

    function With(side: Side, d: Depth): Ladder {
      if side.Bid? then this.(bids := d) else this.(asks := d)
    }
  }

  function LadderOf(v: View): Ladder {
    Ladder(v.bidDepth, v.askDepth)
  }

  function Merge(d: Ladder, levels: seq<ChangedLevel>): Ladder {
    if levels == [] then d
    else
      var d' := Merge(d, levels[..|levels| - 1]);
      var l := levels[|levels| - 1];
      d'.With(l.side, MergeLevel(d'.On(l.side), l))
  }

  /** A subscriber that merges the reported levels gets the new depth. */
  ghost predicate Merges(v: View, c: Change) {
    Merge(LadderOf(v), c.levels) == LadderOf(c.view)
  }

  lemma MergeOne(d: Ladder, l: ChangedLevel)
    ensures Merge(d, [l]) == d.With(l.side, MergeLevel(d.On(l.side), l))
  {
  }

  // ---------- totals ----------

  lemma {:induction false} TotalInsert(side: Side, os: seq<Order>, o: Order, px: Px)
    ensures Total(Insert(side, os, o), px) == Total(os, px) + if o.price == px then o.remaining else 0
  {
    if os == [] || Better(side, o.price, os[0].price) {
      assert ([o] + os)[1..] == os;
    } else {
      TotalInsert(side, os[1..], o, px);
    }
  }

  lemma {:induction false} TotalRemove(os: seq<Order>, id: Id, px: Px)
    requires exists o :: o in os && o.id == id
    ensures Find(os, id).Some?
    ensures Total(Remove(os, id), px)
         == Total(os, px) - if Find(os, id).value.price == px then Find(os, id).value.remaining else 0
  {
    if os[0].id != id {
      assert exists o :: o in os[1..] && o.id == id;
      TotalRemove(os[1..], id, px);
    }
  }

  lemma {:induction false} TotalAtLeast(os: seq<Order>, o: Order)
    requires o in os
    ensures Total(os, o.price) >= o.remaining
  {
    if os[0] != o {
      TotalAtLeast(os[1..], o);
    }
  }

  lemma {:induction false} TotalZero(os: seq<Order>, px: Px)
    requires BookOk(os)
    ensures Total(os, px) == 0 <==> px !in Prices(os)
  {
    if os != [] {
      TotalZero(os[1..], px);
      assert os == [os[0]] + os[1..];
      assert Prices(os) == Prices(os[1..]) + {os[0].price};
    }
  }

  lemma DepthKeys(d: Depth, os: seq<Order>)
    requires BookOk(os) && DepthAgrees(d, os)
    ensures d.Keys == Prices(os) && |d| == |Prices(os)|
  {
    forall px: Px
      ensures px in d <==> px in Prices(os)
    {
      TotalZero(os, px);
    }
    assert forall px | px in d.Keys :: px in Prices(os);
    assert forall px | px in Prices(os) :: px in d.Keys;
    assert d.Keys == Prices(os);
    assert |d.Keys| == |d|;
  }

  // ---------- one update ----------

  /** Lowering a level by an order that is part of it. */
  lemma LoweredAgrees(d: Depth, os: seq<Order>, os': seq<Order>, px: Px, amount: U64)
    requires DepthAgrees(d, os) && amount <= Total(os, px)
    requires forall q: Px :: Total(os', q) == Total(os, q) - if q == px then amount else 0
    ensures DepthAgrees(Lowered(d, px, amount), os')
    ensures MergeLevel(d, ChangedLevel(Bid, px, Get(Lowered(d, px, amount), px))) == Lowered(d, px, amount)
  {
  }

  lemma RaisedAgrees(d: Depth, os: seq<Order>, os': seq<Order>, px: Px, amount: U64)
    requires DepthAgrees(d, os) && 0 < amount && Total(os', px) < U64_MODULUS
    requires forall q: Px :: Total(os', q) == Total(os, q) + if q == px then amount else 0
    ensures DepthAgrees(d[px := Wrap(Get(d, px) + amount)], os')
    ensures Wrap(Get(d, px) + amount) == Get(d, px) + amount > 0
  {
    hide Total;
    var total := Get(d, px) + amount;
    assert total == Total(os', px);
    WrapSmall(total);
    hide Wrap;
    var d' := d[px := Wrap(total)];
    forall q: Px
      ensures Get(d', q) == Total(os', q) && (q in d' ==> d'[q] > 0)
    {
      assert Get(d, q) == Total(os, q);
    }
  }

  lemma WrapSmall(x: int)
    requires 0 <= x < U64_MODULUS
    ensures Wrap(x) == x
  {
  }

  lemma AdjustedAgrees(d: Depth, os: seq<Order>, os': seq<Order>, px: Px, before: U64, after: U64)
    requires DepthAgrees(d, os) && 0 < after <= before <= Total(os, px)
    requires forall q: Px :: Total(os', q) == Total(os, q) - if q == px then before - after else 0
    ensures DepthAgrees(d[px := Wrap(Get(d, px) + after - before)], os')
    ensures Wrap(Get(d, px) + after - before) == Get(d, px) + after - before > 0
  {
  }

  lemma RestingFront(resting: map<Id, RestingOrder>, side: Side, os: seq<Order>, other: seq<Order>, q: Qty)
    requires RestingAgrees(resting, os + other) && Distinct(os) && DisjointIds(os, other)
    requires os != [] && 0 < q <= os[0].remaining
    ensures var head := os[0];
            RestingAgrees(if q == head.remaining then resting - {head.id}
                          else resting[head.id := RestingOrder(head.price, head.remaining - q)],
                          TakenFront(os, q) + other)
  {
  }

  // ---------- one execution ----------

  /** The maker's update as the replica reads it. */
  lemma FillUpdateRemaining(p: PlaceCommand, f: Fill)
    requires f.qty <= f.maker.remaining <= f.maker.qty
    ensures var u := MakerUpdate(p, f);
            Wrap(u.qty - u.filledQty) == f.maker.remaining - f.qty
            && (Terminal(u.status) <==> f.qty == f.maker.remaining)
            && u.price == Some(f.maker.price) && u.orderId == f.maker.id && u.side == p.side.Opposite()
  {
  }

  /** Agreement of one side, with the other side's orders listed after it. */
  ghost predicate SideAgrees(v: View, side: Side, os: seq<Order>, other: seq<Order>) {
    && RestingAgrees(v.resting, os + other)
    && DepthAgrees(v.On(side), os) && DepthAgrees(v.On(side.Opposite()), other)
  }

  lemma AgreesBySide(v: View, s: State, side: Side)
    ensures Agrees(v, s) <==> (v.lastSeq == s.lastSeq && SideAgrees(v, side, s.On(side), s.On(side.Opposite())))
  {
  }

  /** What the list before an execution says about the maker and about the list after it. */
  ghost predicate FrontFacts(v: View, side: Side, os: seq<Order>, q: Qty)
    requires os != [] && q <= os[0].remaining
  {
    && os[0].id in v.resting && v.resting[os[0].id] == RestingOrder(os[0].price, os[0].remaining)
    && os[0].remaining <= Total(os, os[0].price)
    && (forall px: Px :: Total(TakenFront(os, q), px) == Total(os, px) - if px == os[0].price then q else 0)
  }

  lemma FrontFactsHold(v: View, side: Side, os: seq<Order>, other: seq<Order>, q: Qty)
    requires RestingAgrees(v.resting, os + other) && os != [] && q <= os[0].remaining
    ensures FrontFacts(v, side, os, q)
  {
  }

  lemma MakerGone(v: View, side: Side, os: seq<Order>, other: seq<Order>)
    requires os != [] && 0 < os[0].remaining && FrontFacts(v, side, os, os[0].remaining)
    requires DepthAgrees(v.On(side), os) && DepthAgrees(v.On(side.Opposite()), other)
    requires RestingAgrees(v.resting - {os[0].id}, os[1..] + other)
    ensures var v' := Without(v, side, os[0].id);
            var px := os[0].price;
            SideAgrees(v', side, os[1..], other)
            && Merges(v, Change(v', [ChangedLevel(side, px, Get(v'.On(side), px))]))
  {
    hide RestingAgrees, DepthAgrees, Merge, Total;
    LoweredAgrees(v.On(side), os, os[1..], os[0].price, os[0].remaining);
    WithoutMerges(v, side, os[0].id);
    hide Lowered;
  }

  lemma MakerReduced(v: View, side: Side, os: seq<Order>, other: seq<Order>, q: Qty)
    requires os != [] && 0 < q < os[0].remaining && FrontFacts(v, side, os, q)
    requires DepthAgrees(v.On(side), os) && DepthAgrees(v.On(side.Opposite()), other)
    requires RestingAgrees(v.resting[os[0].id := RestingOrder(os[0].price, os[0].remaining - q)],
                           TakenFront(os, q) + other)
    ensures var c := Adjusted(v, side, os[0].id, os[0].remaining - q);
            SideAgrees(c.view, side, TakenFront(os, q), other) && Merges(v, c)
  {
    hide RestingAgrees, DepthAgrees, Merge, Total, TakenFront, Wrap;
    AdjustedAgrees(v.On(side), os, TakenFront(os, q), os[0].price, os[0].remaining, os[0].remaining - q);
    AdjustedMerges(v, side, os[0].id, os[0].remaining - q);
  }

  /** The maker's update turns agreement with the list before the execution into agreement after it. */
  lemma MakerUpdateAgrees(v: View, p: PlaceCommand, os: seq<Order>, other: seq<Order>, q: Qty)
    requires var opp := p.side.Opposite();
             SideAgrees(v, opp, os, other) && Distinct(os) && DisjointIds(os, other)
    requires os != [] && 0 < q <= os[0].remaining <= os[0].qty
    ensures var c := Updated(v, MakerUpdate(p, Fill(os[0], q)));
            SideAgrees(c.view, p.side.Opposite(), TakenFront(os, q), other)
            && Merges(v, c) && c.view.lastSeq == v.lastSeq
  {
    hide RestingAgrees, DepthAgrees, Merge, Merges, Total, Wrap, Updated, Lowered, Distinct, DisjointIds, MakerUpdate;
    var opp := p.side.Opposite();
    FrontFactsHold(v, opp, os, other, q);
    UpdatedMaker(v, p, Fill(os[0], q));
    RestingFront(v.resting, opp, os, other, q);
    if q == os[0].remaining {
      MakerGone(v, opp, os, other);
    } else {
      MakerReduced(v, opp, os, other, q);
    }
  }

  /** Which of the replica's branches a maker's update takes. */
  lemma UpdatedMaker(v: View, p: PlaceCommand, f: Fill)
    requires f.qty <= f.maker.remaining <= f.maker.qty
    requires f.maker.id in v.resting && v.resting[f.maker.id] == RestingOrder(f.maker.price, f.maker.remaining)
    ensures var side := p.side.Opposite();
            var id := f.maker.id;
            Updated(v, MakerUpdate(p, f))
            == if f.qty == f.maker.remaining then
                 Change(Without(v, side, id),
                        [ChangedLevel(side, f.maker.price, Get(Without(v, side, id).On(side), f.maker.price))])
               else Adjusted(v, side, id, f.maker.remaining - f.qty)
  {
    FillUpdateRemaining(p, f);
    hide Wrap, Lowered;
  }

  /** Removing a listed order reports the level's new total. */
  lemma WithoutMerges(v: View, side: Side, id: Id)
    requires id in v.resting
    requires var was := v.resting[id];
             var d := Lowered(v.On(side), was.price, was.remaining);
             MergeLevel(v.On(side), ChangedLevel(Bid, was.price, Get(d, was.price))) == d
    ensures var v' := Without(v, side, id);
            var px := v.resting[id].price;
            Merges(v, Change(v', [ChangedLevel(side, px, Get(v'.On(side), px))]))
  {
  }

  lemma AdjustedMerges(v: View, side: Side, id: Id, remaining: U64)
    requires id in v.resting
    requires Wrap(Get(v.On(side), v.resting[id].price) + remaining - v.resting[id].remaining) > 0
    ensures Merges(v, Adjusted(v, side, id, remaining))
  {
  }

  // ---------- batches ----------

  ghost predicate MergesAll(v: View, d: seq<Event>) {
    d == [] ||
    (MergesAll(v, d[..|d| - 1])
     && var before := ApplyAll(v, d[..|d| - 1]);
     Merges(before, Applied(before, d[|d| - 1])))
  }

  lemma ApplyLast(v: View, d: seq<Event>, e: Event)
    ensures ApplyAll(v, d + [e]) == Applied(ApplyAll(v, d), e).view
    ensures MergesAll(v, d + [e]) <==> MergesAll(v, d) && Merges(ApplyAll(v, d), Applied(ApplyAll(v, d), e))
  {
    hide Applied, Merges;
    assert (d + [e])[..|d|] == d;
  }

  lemma ApplyNone(v: View)
    ensures ApplyAll(v, []) == v && MergesAll(v, [])
  {
  }

  lemma {:induction false} ApplyConcat(v: View, a: seq<Event>, b: seq<Event>)
    ensures ApplyAll(v, a + b) == ApplyAll(ApplyAll(v, a), b)
    ensures MergesAll(v, a) && MergesAll(ApplyAll(v, a), b) ==> MergesAll(v, a + b)
  {
    hide ApplyAll, MergesAll, Applied, Merges;
    if b == [] {
      assert a + b == a;
      ApplyNone(ApplyAll(v, a));
    } else {
      var front, e := b[..|b| - 1], b[|b| - 1];
      ApplyConcat(v, a, front);
      assert b == front + [e] && a + b == (a + front) + [e];
      ApplyLast(v, a + front, e);
      ApplyLast(ApplyAll(v, a), front, e);
    }
  }

  lemma ApplyOne(v: View, e: Event)
    ensures ApplyAll(v, [e]) == Applied(v, e).view
    ensures MergesAll(v, [e]) <==> Merges(v, Applied(v, e))
  {
  }

  lemma ApplyPair(v: View, e: Event, f: Event)
    ensures ApplyAll(v, [e, f]) == Applied(Applied(v, e).view, f).view
    ensures MergesAll(v, [e, f])
            <==> Merges(v, Applied(v, e)) && Merges(Applied(v, e).view, Applied(Applied(v, e).view, f))
  {
    assert [e, f][..1] == [e];
    ApplyOne(v, e);
  }

  lemma FillAgrees(v: View, s: State, p: PlaceCommand, q: Qty)
    requires Good(s) && Agrees(v, s)
    requires var os := s.On(p.side.Opposite());
             os != [] && 0 < q <= os[0].remaining <= os[0].qty
    ensures var os := s.On(p.side.Opposite());
            var batch := FillEvents(p, [Fill(os[0], q)], s.lastTrade, s.lastSeq);
            Agrees(ApplyAll(v, batch), MidSweep(s, p, 1, TakenFront(os, q))) && MergesAll(v, batch)
  {
    hide Good, FillEvents, RestingAgrees, DepthAgrees, Updated, TakenFront, Merge, Agrees;
    var opp := p.side.Opposite();
    var os := s.On(opp);
    var f := Fill(os[0], q);
    var t := Event(s.lastSeq + 1, TradeMade(TradeOf(p, f, s.lastTrade + 1)));
    var u := Event(s.lastSeq + 2, OrderChanged(MakerUpdate(p, f)));
    FillPair(p, f, s.lastTrade, s.lastSeq);
    AgreesBySide(v, s, opp);
    GoodBySides(s, opp);
    var v1 := v.(lastSeq := s.lastSeq + 1);
    var v2 := v.(lastSeq := s.lastSeq + 2);
    MakerUpdateAgrees(v2, p, os, s.On(p.side), q);
    ApplyPair(v, t, u);
    assert Applied(v, t) == Change(v1, []);
    assert Applied(v1, u) == Updated(v2, MakerUpdate(p, f));
    MergeNone(v, v1);
    AgreesBySide(ApplyAll(v, [t, u]), MidSweep(s, p, 1, TakenFront(os, q)), opp);
  }

  lemma MergeNone(v: View, v': View)
    requires LadderOf(v) == LadderOf(v')
    ensures Merges(v, Change(v', []))
  {
  }

  lemma FillPair(p: PlaceCommand, f: Fill, lastTrade: nat, lastSeq: nat)
    requires f.qty <= f.maker.remaining <= f.maker.qty
    ensures FillEvents(p, [f], lastTrade, lastSeq)
         == [Event(lastSeq + 1, TradeMade(TradeOf(p, f, lastTrade + 1))),
             Event(lastSeq + 2, OrderChanged(MakerUpdate(p, f)))]
  {
  }

  ghost predicate SweepAgrees(v: View, s: State, p: PlaceCommand, left: Qty) {
    var sweep := Match(p, LimitOf(p), s.On(p.side.Opposite()), left);
    FillsOk(sweep.fills) &&
    var batch := FillEvents(p, sweep.fills, s.lastTrade, s.lastSeq);
    Agrees(ApplyAll(v, batch), MidSweep(s, p, |sweep.fills|, sweep.rest)) && MergesAll(v, batch)
  }

  lemma {:induction false} SweepKeepsAgreement(v: View, s: State, p: PlaceCommand, left: Qty)
    requires Good(s) && Agrees(v, s)
    ensures SweepAgrees(v, s, p, left)
    decreases left
  {
    hide Good, Agrees, FillEvents;
    var limit := LimitOf(p);
    var os := s.On(p.side.Opposite());
    if left == 0 || os == [] || !Crosses(p.side, os[0].price, limit) || SelfTrade(p, os[0]) {
      AgreementStops(v, s, p, left);
    } else {
      GoodFront(s, p.side.Opposite());
      var q: Qty := Min(left, os[0].remaining);
      FillAgrees(v, s, p, q);
      TakenFrontGood(s, p.side.Opposite(), q);
      var s1 := MidSweep(s, p, 1, TakenFront(os, q));
      assert Good(s1) by {
        GoodCounted(s.With(p.side.Opposite(), TakenFront(os, q)), s1);
      }
      var v1 := ApplyAll(v, FillEvents(p, [Fill(os[0], q)], s.lastTrade, s.lastSeq));
      SweepKeepsAgreement(v1, s1, p, left - q);
      AgreementGoesOn(v, s, p, left, q);
    }
  }

  lemma GoodCounted(s: State, s': State)
    requires Good(s) && s' == s.(lastTrade := s'.lastTrade, lastSeq := s'.lastSeq)
    ensures Good(s')
  {
  }

  lemma AgreementStops(v: View, s: State, p: PlaceCommand, left: Qty)
    requires Agrees(v, s)
    requires Match(p, LimitOf(p), s.On(p.side.Opposite()), left).fills == []
    requires Match(p, LimitOf(p), s.On(p.side.Opposite()), left).rest == s.On(p.side.Opposite())
    ensures SweepAgrees(v, s, p, left)
  {
    hide Agrees;
    assert MidSweep(s, p, 0, s.On(p.side.Opposite())) == s;
    assert FillEvents(p, [], s.lastTrade, s.lastSeq) == [];
  }

  lemma AgreementGoesOn(v: View, s: State, p: PlaceCommand, left: Qty, q: Qty)
    requires var os := s.On(p.side.Opposite());
             && os != [] && 0 < q == Min(left, os[0].remaining) && os[0].remaining <= os[0].qty
             && Crosses(p.side, os[0].price, LimitOf(p)) && !SelfTrade(p, os[0])
             && var batch := FillEvents(p, [Fill(os[0], q)], s.lastTrade, s.lastSeq);
             MergesAll(v, batch)
             && SweepAgrees(ApplyAll(v, batch), MidSweep(s, p, 1, TakenFront(os, q)), p, left - q)
    ensures SweepAgrees(v, s, p, left)
  {
    hide Agrees, FillEvents, ApplyAll, MergesAll;
    var limit := LimitOf(p);
    var os := s.On(p.side.Opposite());
    var f := Fill(os[0], q);
    var sweep := Match(p, limit, os, left);
    var rest := Match(p, limit, TakenFront(os, q), left - q);
    MatchStep(p, limit, os, left, q);
    hide Match;
    var s1 := MidSweep(s, p, 1, TakenFront(os, q));
    assert s1.On(p.side.Opposite()) == TakenFront(os, q);
    FillEventsCons(p, f, rest.fills, s.lastTrade, s.lastSeq);
    assert MidSweep(s1, p, |rest.fills|, rest.rest) == MidSweep(s, p, |sweep.fills|, sweep.rest);
    ApplyConcat(v, FillEvents(p, [f], s.lastTrade, s.lastSeq),
                FillEvents(p, rest.fills, s.lastTrade + 1, s.lastSeq + 2));
  }

  // ---------- updates of the taker and cancels ----------

  /** An update that ends an order the replica does not know changes nothing but the number. */
  lemma EndUnknown(v: View, s: State, u: OrderUpdate)
    requires Agrees(v, s) && Terminal(u.status) && !Resting(s, u.orderId)
    ensures var e := Event(s.lastSeq + 1, OrderChanged(u));
            ApplyAll(v, [e]) == v.(lastSeq := s.lastSeq + 1) && MergesAll(v, [e])
            && Agrees(ApplyAll(v, [e]), s.(lastSeq := s.lastSeq + 1))
  {
    var e := Event(s.lastSeq + 1, OrderChanged(u));
    ApplyOne(v, e);
    assert u.orderId !in v.resting;
  }

  ghost predicate LevelsOk(s: State) {
    |Prices(s.bids)| <= MAX_LEVELS && |Prices(s.asks)| <= MAX_LEVELS
  }

  lemma AddedDepth(v: View, s: State, side: Side, o: Order)
    requires Agrees(v, s) && 0 < o.remaining && Fits(Insert(side, s.On(side), o))
    ensures var total := Get(v.On(side), o.price) + o.remaining;
            Wrap(total) == total > 0 && DepthAgrees(v.On(side)[o.price := Wrap(total)], Insert(side, s.On(side), o))
  {
    forall px: Px {
      TotalInsert(side, s.On(side), o, px);
    }
    RaisedAgrees(v.On(side), s.On(side), Insert(side, s.On(side), o), o.price, o.remaining);
  }

  lemma AddedResting(v: View, s: State, side: Side, o: Order)
    requires Agrees(v, s) && !Resting(s, o.id)
    ensures var s' := s.With(side, Insert(side, s.On(side), o));
            RestingAgrees(v.resting[o.id := RestingOrder(o.price, o.remaining)], s'.bids + s'.asks)
  {
    hide Insert, DepthAgrees;
    var s' := s.With(side, Insert(side, s.On(side), o));
    InsertMembers(side, s.On(side), o);
    assert forall x :: x in s'.bids + s'.asks <==> x in s.bids + s.asks || x == o;
  }

  lemma AddedOk(s: State, side: Side, o: Order)
    requires Good(s) && 0 < o.remaining <= o.qty
    ensures BookOk(Insert(side, s.On(side), o))
  {
    InsertMembers(side, s.On(side), o);
  }

  /** A new resting order: the replica agrees afterwards exactly when its side has at most 200 levels. */
  lemma OpenAgrees(v: View, s: State, side: Side, o: Order, u: OrderUpdate)
    requires Good(s) && Agrees(v, s) && !Resting(s, o.id) && 0 < o.remaining <= o.qty
    requires u == OrderUpdate(o.id, o.user, side, Some(o.price), u.status, o.qty - o.remaining, o.qty)
    requires !Terminal(u.status) && Fits(Insert(side, s.On(side), o))
    ensures var e := Event(s.lastSeq + 1, OrderChanged(u));
            var s' := s.(lastSeq := s.lastSeq + 1).With(side, Insert(side, s.On(side), o));
            && (Agrees(ApplyAll(v, [e]), s') <==> |Prices(s'.On(side))| <= MAX_LEVELS)
            && (|Prices(s'.On(side))| <= MAX_LEVELS ==> MergesAll(v, [e]))
  {
    hide *;
    AddedToBoth(v, s, side, o);
    OpenApplied(v, s, side, o, u);
  }

  lemma AddedToBoth(v: View, s: State, side: Side, o: Order)
    requires Good(s) && Agrees(v, s) && !Resting(s, o.id) && 0 < o.remaining <= o.qty
    requires Fits(Insert(side, s.On(side), o))
    ensures var c := Added(v.(lastSeq := s.lastSeq + 1), side, o.id, o.price, o.remaining);
            var s' := s.(lastSeq := s.lastSeq + 1).With(side, Insert(side, s.On(side), o));
            && (Agrees(c.view, s') <==> |Prices(s'.On(side))| <= MAX_LEVELS)
            && (|Prices(s'.On(side))| <= MAX_LEVELS ==> Merges(v.(lastSeq := s.lastSeq + 1), c))
  {
    AddedReadyHolds(v, s, side, o);
    hide *;
    AddedAgrees(v.(lastSeq := s.lastSeq + 1), s, side, o);
  }

  /** Everything about book and replica that adding an order depends on. */
  ghost predicate AddedReady(v: View, s: State, side: Side, o: Order) {
    var os' := Insert(side, s.On(side), o);
    var s' := s.With(side, os');
    var total := Get(v.On(side), o.price) + o.remaining;
    && Wrap(total) == total > 0 && BookOk(os')
    && DepthAgrees(v.On(side)[o.price := Wrap(total)], os')
    && DepthAgrees(v.On(side.Opposite()), s.On(side.Opposite()))
    && RestingAgrees(v.resting[o.id := RestingOrder(o.price, o.remaining)], s'.bids + s'.asks)
    && v.lastSeq == s.lastSeq + 1
  }

  lemma AddedReadyHolds(v: View, s: State, side: Side, o: Order)
    requires Good(s) && Agrees(v, s) && !Resting(s, o.id) && 0 < o.remaining <= o.qty
    requires Fits(Insert(side, s.On(side), o))
    ensures AddedReady(v.(lastSeq := s.lastSeq + 1), s, side, o)
  {
    hide Good, Insert, DepthAgrees, RestingAgrees, Wrap, BookOk, Fits, Resting;
    AddedDepth(v, s, side, o);
    AddedResting(v, s, side, o);
    AddedOk(s, side, o);
  }

  lemma OpenApplied(v: View, s: State, side: Side, o: Order, u: OrderUpdate)
    requires Agrees(v, s) && !Resting(s, o.id) && o.remaining <= o.qty
    requires u == OrderUpdate(o.id, o.user, side, Some(o.price), u.status, o.qty - o.remaining, o.qty)
    requires !Terminal(u.status)
    ensures var e := Event(s.lastSeq + 1, OrderChanged(u));
            var c := Added(v.(lastSeq := s.lastSeq + 1), side, o.id, o.price, o.remaining);
            ApplyAll(v, [e]) == c.view && (MergesAll(v, [e]) <==> Merges(v.(lastSeq := s.lastSeq + 1), c))
  {
    hide ApplyAll, MergesAll, Updated, Added, Wrap, DepthAgrees;
    var e := Event(s.lastSeq + 1, OrderChanged(u));
    assert o.id !in v.resting;
    hide RestingAgrees, Resting;
    WrapSmall(o.remaining);
    UpdatedOpen(v.(lastSeq := s.lastSeq + 1), u);
    ApplyOne(v, e);
    assert Applied(v, e) == Updated(v.(lastSeq := s.lastSeq + 1), u);
  }

  lemma UpdatedOpen(v: View, u: OrderUpdate)
    requires u.orderId !in v.resting && u.price.Some? && !Terminal(u.status)
    ensures Updated(v, u) == Added(v, u.side, u.orderId, u.price.value, Wrap(u.qty - u.filledQty))
  {
  }

  lemma AddedAgrees(v: View, s: State, side: Side, o: Order)
    requires AddedReady(v, s, side, o)
    ensures var c := Added(v, side, o.id, o.price, o.remaining);
            var s' := s.(lastSeq := s.lastSeq + 1).With(side, Insert(side, s.On(side), o));
            && (Agrees(c.view, s') <==> |Prices(s'.On(side))| <= MAX_LEVELS)
            && (|Prices(s'.On(side))| <= MAX_LEVELS ==> Merges(v, c))
  {
    var os' := Insert(side, s.On(side), o);
    var total := Get(v.On(side), o.price) + o.remaining;
    var d := v.On(side)[o.price := Wrap(total)];
    hide Insert, RestingAgrees, Wrap, Trimmed, DepthAgrees, Prices, Merges;
    var c := Added(v, side, o.id, o.price, o.remaining);
    KeptAgrees(side, d, os');
    if |Prices(os')| <= MAX_LEVELS {
      AddedMerges(v, side, o.id, o.price, o.remaining);
    }
  }

  /** The kept levels agree with the list exactly when none had to go. */
  lemma KeptAgrees(side: Side, d: Depth, os: seq<Order>)
    requires DepthAgrees(d, os) && BookOk(os)
    ensures |d| == |Prices(os)|
    ensures |d| <= MAX_LEVELS ==> Trimmed(side, d, MAX_LEVELS) == d
    ensures DepthAgrees(Trimmed(side, d, MAX_LEVELS), os) <==> |Prices(os)| <= MAX_LEVELS
  {
    var kept := Trimmed(side, d, MAX_LEVELS);
    DepthKeys(d, os);
    TrimKeepsBest(side, d, MAX_LEVELS);
    TrimStep(side, d, MAX_LEVELS);
    hide DepthAgrees, Trimmed, BookOk, Prices;
    if DepthAgrees(kept, os) {
      DepthKeys(kept, os);
    }
  }

  /** When no level has to go, the reported level is the only change. */
  lemma AddedMerges(v: View, side: Side, id: Id, px: Px, remaining: U64)
    requires var d := v.On(side)[px := Wrap(Get(v.On(side), px) + remaining)];
             Trimmed(side, d, MAX_LEVELS) == d && d[px] > 0
    ensures Merges(v, Added(v, side, id, px, remaining))
  {
    hide Trimmed, Wrap;
    MergeOne(LadderOf(v), Added(v, side, id, px, remaining).levels[0]);
  }

  lemma RestingRemove(resting: map<Id, RestingOrder>, os: seq<Order>, other: seq<Order>, id: Id)
    requires RestingAgrees(resting, os + other) && Distinct(os) && DisjointIds(os, other)
    requires exists o :: o in os && o.id == id
    ensures RestingAgrees(resting - {id}, Remove(os, id) + other)
  {
    RemoveMembers(os, id);
    var rest := Remove(os, id) + other;
    assert forall o :: o in rest <==> o in os + other && o.id != id;
    forall x | x in resting - {id}
      ensures exists o :: o in rest && o.id == x
    {
      var o :| o in os + other && o.id == x;
      assert o in rest;
    }
  }

  lemma RemovedFacts(v: View, side: Side, os: seq<Order>, other: seq<Order>, o: Order)
    requires RestingAgrees(v.resting, os + other) && Find(os, o.id) == Some(o) && o in os
    ensures o.id in v.resting && v.resting[o.id] == RestingOrder(o.price, o.remaining)
    ensures o.remaining <= Total(os, o.price)
    ensures forall px: Px :: Total(Remove(os, o.id), px) == Total(os, px) - if px == o.price then o.remaining else 0
  {
    assert o in os + other;
    TotalAtLeast(os, o);
    forall px: Px {
      TotalRemove(os, o.id, px);
    }
  }

  /** A cancel's update takes exactly the canceled order out of the replica. */
  lemma CancelAgrees(v: View, s: State, side: Side, o: Order)
    requires Good(s) && Agrees(v, s) && Find(s.On(side), o.id) == Some(o) && o in s.On(side) && o.remaining <= o.qty
    ensures var r := CancelOn(s, side, o);
            Agrees(ApplyAll(v, r.events), r.state) && MergesAll(v, r.events)
  {
    AgreesBySide(v, s, side);
    GoodBySides(s, side);
    hide Good, Agrees, RestingAgrees, DepthAgrees, Merge, Total, Remove, Find, Lowered;
    var os := s.On(side);
    var other := s.On(side.Opposite());
    var v1 := v.(lastSeq := s.lastSeq + 1);
    RemovedFacts(v, side, os, other, o);
    RestingRemove(v.resting, os, other, o.id);
    LoweredAgrees(v.On(side), os, Remove(os, o.id), o.price, o.remaining);
    WithoutMerges(v1, side, o.id);
    var e := CancelOn(s, side, o).events[0];
    ApplyOne(v, e);
    CancelApplied(v, s, side, o);
    AgreesBySide(Without(v1, side, o.id), CancelOn(s, side, o).state, side);
  }

  lemma CancelApplied(v: View, s: State, side: Side, o: Order)
    requires v.lastSeq == s.lastSeq && o.remaining <= o.qty
    requires o.id in v.resting && v.resting[o.id] == RestingOrder(o.price, o.remaining)
    ensures var v' := Without(v.(lastSeq := s.lastSeq + 1), side, o.id);
            Applied(v, CancelOn(s, side, o).events[0])
            == Change(v', [ChangedLevel(side, o.price, Get(v'.On(side), o.price))])
  {
  }

  // ---------- one command ----------

  lemma SweepLevels(p: PlaceCommand, limit: Px, os: seq<Order>, left: Qty)
    requires BookOk(os)
    ensures |Prices(Match(p, limit, os, left).rest)| <= |Prices(os)|
  {
    var rest := Match(p, limit, os, left).rest;
    var k := MatchRest(p, limit, os, left);
    forall px | px in Prices(rest)
      ensures px in Prices(os)
    {
      var o :| o in rest && o.price == px;
      var i :| 0 <= i < |rest| && rest[i] == o;
      assert os[k + i] in os && os[k + i].price == px;
    }
    SubsetSize(Prices(rest), Prices(os));
  }

  lemma RemoveLevels(os: seq<Order>, id: Id)
    ensures |Prices(Remove(os, id))| <= |Prices(os)|
  {
    RemoveSubset(os, id);
    SubsetSize(Prices(Remove(os, id)), Prices(os));
  }

  /** The batch of one command keeps agreement exactly when the new book has at most 200 levels a side. */
  ghost predicate BatchOk(v: View, r: Outcome) {
    && (Agrees(ApplyAll(v, r.events), r.state) <==> LevelsOk(r.state))
    && (LevelsOk(r.state) ==> MergesAll(v, r.events))
  }

  lemma FinishAgrees(v: View, s: State, p: PlaceCommand, sweep: Sweep)
    requires Good(s) && Agrees(v, s) && LevelsOk(s) && !Resting(s, p.orderId) && sweep.left <= p.qty
    requires p.orderType.Limit? ==> p.price.Some?
    requires Fits(Conclude(s, p, LimitOf(p), sweep).On(p.side))
    ensures BatchOk(v, Outcome(Conclude(s, p, LimitOf(p), sweep),
                               [Event(s.lastSeq + 1, OrderChanged(TakerUpdate(p, LimitOf(p), sweep)))]))
  {
    hide Good, Agrees, Fits, ApplyAll, MergesAll, Insert;
    var u := TakerUpdate(p, LimitOf(p), sweep);
    if Rests(p, sweep) {
      OpenAgrees(v, s, p.side, TakerOrder(p, LimitOf(p), sweep.left), u);
    } else {
      EndUnknown(v, s, u);
    }
  }

  lemma ExecuteAgrees(v: View, s: State, p: PlaceCommand)
    requires Good(s) && Agrees(v, s) && LevelsOk(s) && !Resting(s, p.orderId)
    requires Admit(p, s.On(p.side.Opposite())).Some?
    requires Fits(Execute(s, p, LimitOf(p)).state.On(p.side))
    ensures BatchOk(v, Execute(s, p, LimitOf(p)))
  {
    hide Good, Agrees, Match, Fits, FillEvents, ApplyAll, MergesAll, Prices, Resting;
    var limit := LimitOf(p);
    var sweep := Match(p, limit, s.On(p.side.Opposite()), p.qty);
    SweptReady(v, s, p);
    var swept := AfterSweep(s, p, sweep);
    var batch := FillEvents(p, sweep.fills, s.lastTrade, s.lastSeq);
    var last := [Event(swept.lastSeq + 1, OrderChanged(TakerUpdate(p, limit, sweep)))];
    FinishAgrees(ApplyAll(v, batch), swept, p, sweep);
    ApplyConcat(v, batch, last);
  }

  /** After the executions everything is in place for the taker's own update. */
  lemma SweptReady(v: View, s: State, p: PlaceCommand)
    requires Good(s) && Agrees(v, s) && LevelsOk(s) && !Resting(s, p.orderId)
    ensures var sweep := Match(p, LimitOf(p), s.On(p.side.Opposite()), p.qty);
            sweep.left <= p.qty && FillsOk(sweep.fills) &&
            var swept := AfterSweep(s, p, sweep);
            var batch := FillEvents(p, sweep.fills, s.lastTrade, s.lastSeq);
            && Good(swept) && LevelsOk(swept) && !Resting(swept, p.orderId)
            && Agrees(ApplyAll(v, batch), swept) && MergesAll(v, batch)
  {
    hide Good, Agrees, Match, FillEvents, ApplyAll, MergesAll, Prices, Resting, BookOk, FillsOk;
    GoodSizes(s);
    var os := s.On(p.side.Opposite());
    MatchBounds(p, LimitOf(p), os, p.qty);
    SweepKeepsAgreement(v, s, p, p.qty);
    SweepLevels(p, LimitOf(p), os, p.qty);
    SweepKeeps(s, p, LimitOf(p));
    SweptOut(s, p, LimitOf(p));
    var sweep := Match(p, LimitOf(p), os, p.qty);
    assert AfterSweep(s, p, sweep) == MidSweep(s, p, |sweep.fills|, sweep.rest);
  }

  /** A taker that was not in the book is not in it after the sweep either. */
  lemma SweptOut(s: State, p: PlaceCommand, limit: Px)
    requires Good(s) && !Resting(s, p.orderId)
    ensures !Resting(AfterSweep(s, p, Match(p, limit, s.On(p.side.Opposite()), p.qty)), p.orderId)
  {
    var os := s.On(p.side.Opposite());
    var sweep := Match(p, limit, os, p.qty);
    var swept := AfterSweep(s, p, sweep);
    forall x | x in swept.bids + swept.asks
      ensures exists y :: y in s.bids + s.asks && y.id == x.id
    {
      if x in sweep.rest {
        MatchIds(p, limit, os, p.qty, x);
        var y :| y in os && y.id == x.id;
        assert y in s.bids + s.asks;
      } else {
        assert x in s.bids + s.asks;
      }
    }
  }

  lemma PlaceAgrees(v: View, s: State, p: PlaceCommand)
    requires Good(s) && Agrees(v, s) && LevelsOk(s)
    requires Fits(DoPlace(s, p).state.On(p.side))
    ensures BatchOk(v, DoPlace(s, p))
  {
    if p.orderId in s.seen {
      NothingAgrees(v, s);
    } else {
      FreshAgrees(v, s, p);
    }
  }

  lemma NothingAgrees(v: View, s: State)
    requires Agrees(v, s) && LevelsOk(s)
    ensures BatchOk(v, Outcome(s, []))
  {
  }

  lemma FreshAgrees(v: View, s: State, p: PlaceCommand)
    requires Good(s) && Agrees(v, s) && LevelsOk(s) && p.orderId !in s.seen
    requires Fits(DoPlace(s, p).state.On(p.side))
    ensures BatchOk(v, DoPlace(s, p))
  {
    hide Good, Agrees, LevelsOk, BatchOk, Execute, Refuse, Admit, Resting, Fits, Match, FillEvents, Prices;
    var s1 := s.(seen := s.seen + {p.orderId});
    FreshOrder(s, p);
    SeenDoesNotMatter(v, s, p);
    if Admit(p, s1.On(p.side.Opposite())).None? {
      RefusalAgrees(v, s1, p);
    } else {
      AdmittedLimit(p, s1.On(p.side.Opposite()));
      ExecuteAgrees(v, s1, p);
    }
  }

  lemma FreshOrder(s: State, p: PlaceCommand)
    requires Good(s) && p.orderId !in s.seen
    ensures var s1 := s.(seen := s.seen + {p.orderId}); Good(s1) && !Resting(s1, p.orderId)
  {
  }

  lemma AdmittedLimit(p: PlaceCommand, os: seq<Order>)
    ensures Admit(p, os).Some? ==> Admit(p, os).value == LimitOf(p)
  {
  }

  lemma RefusalAgrees(v: View, s: State, p: PlaceCommand)
    requires Agrees(v, s) && LevelsOk(s) && !Resting(s, p.orderId)
    ensures BatchOk(v, Refuse(s, p))
  {
    hide Agrees, Resting, Prices;
    EndUnknown(v, s, OrderUpdate(p.orderId, p.userId, p.side, p.price, Rejected, 0, p.qty));
  }

  lemma SeenDoesNotMatter(v: View, s: State, p: PlaceCommand)
    requires Agrees(v, s) && LevelsOk(s)
    ensures Agrees(v, s.(seen := s.seen + {p.orderId})) && LevelsOk(s.(seen := s.seen + {p.orderId}))
  {
  }

  lemma CancelCommandAgrees(v: View, s: State, id: Id)
    requires Good(s) && Agrees(v, s) && LevelsOk(s)
    ensures BatchOk(v, DoCancel(s, id))
  {
    hide Good, Agrees, ApplyAll, Remove, Prices, BatchOk, Find;
    GoodSizes(s);
    FindOk(s.bids, id);
    FindOk(s.asks, id);
    if Find(s.bids, id).Some? {
      CancelOnAgrees(v, s, Bid, Find(s.bids, id).value);
    } else if Find(s.asks, id).Some? {
      CancelOnAgrees(v, s, Ask, Find(s.asks, id).value);
    } else {
      NothingAgrees(v, s);
    }
  }

  lemma CancelOnAgrees(v: View, s: State, side: Side, o: Order)
    requires Good(s) && Agrees(v, s) && LevelsOk(s)
    requires Find(s.On(side), o.id) == Some(o) && o in s.On(side) && o.remaining <= o.qty
    ensures BatchOk(v, CancelOn(s, side, o))
  {
    hide Good, Agrees, ApplyAll, MergesAll, Remove, Prices;
    RemoveLevels(s.On(side), o.id);
    CancelAgrees(v, s, side, o);
  }

  /** Exactness per command: the replica agrees after the batch iff neither side has more than 200 levels,
      and while that holds every reported change list turns the old depth into the new one. */
  lemma BatchAgreement(v: View, s: State, cmd: Command)
    requires Good(s) && Agrees(v, s) && LevelsOk(s)
    requires Fits(Step(s, cmd).state.bids) && Fits(Step(s, cmd).state.asks)
    ensures var r := Step(s, cmd);
            (Agrees(ApplyAll(v, r.events), r.state) <==> LevelsOk(r.state))
            && (LevelsOk(r.state) ==> MergesAll(v, r.events))
  {
    hide Good, Agrees, LevelsOk, Fits, ApplyAll;
    match cmd
    case Place(p) => PlaceAgrees(v, s, p);
    case Cancel(c) => CancelCommandAgrees(v, s, c.orderId);
  }

  // ---------- whole runs ----------

  /** No book along the run has more than 200 levels on a side or a level total beyond 64 bits. */
  ghost predicate Shallow(log: seq<Command>) {
    && (log != [] ==> Shallow(log[..|log| - 1]))
    && LevelsOk(After(log)) && Fits(After(log).bids) && Fits(After(log).asks)
  }

  lemma {:induction false} RunAgreement(log: seq<Command>)
    requires Shallow(log)
    ensures Agrees(ApplyAll(BLANK, Emitted(log)), After(log)) && MergesAll(BLANK, Emitted(log))
  {
    if log != [] {
      var front := log[..|log| - 1];
      RunAgreement(front);
      var v := ApplyAll(BLANK, Emitted(front));
      BatchAgreement(v, After(front), log[|log| - 1]);
      ApplyConcat(BLANK, Emitted(front), Step(After(front), log[|log| - 1]).events);
    }
  }

  /** The replica agrees after every command of the log. */
  ghost predicate AgreesThroughout(log: seq<Command>) {
    && (log != [] ==> AgreesThroughout(log[..|log| - 1]))
    && Agrees(ApplyAll(BLANK, Emitted(log)), After(log))
  }

  lemma AgreesFits(v: View, s: State)
    requires Agrees(v, s)
    ensures Fits(s.bids) && Fits(s.asks)
  {
    forall px: Px
      ensures Total(s.bids, px) < U64_MODULUS && Total(s.asks, px) < U64_MODULUS
    {
      assert Get(v.bidDepth, px) == Total(s.bids, px) && Get(v.askDepth, px) == Total(s.asks, px);
    }
  }

  /** Exactness over whole runs: the replica agrees after every command iff every book along the run is shallow. */
  lemma {:induction false} RunAgreementIff(log: seq<Command>)
    ensures AgreesThroughout(log) <==> Shallow(log)
  {
    if log == [] {
      EmptyShallow();
      RunAgreement([]);
    } else {
      var front, last := log[..|log| - 1], log[|log| - 1];
      RunAgreementIff(front);
      if Shallow(front) {
        RunAgreement(front);
        StepAgreementIff(ApplyAll(BLANK, Emitted(front)), After(front), last);
        ApplyConcat(BLANK, Emitted(front), Step(After(front), last).events);
      }
    }
  }

  lemma StepAgreementIff(v: View, s: State, cmd: Command)
    requires Good(s) && Agrees(v, s) && LevelsOk(s)
    ensures var r := Step(s, cmd);
            Agrees(ApplyAll(v, r.events), r.state)
            <==> LevelsOk(r.state) && Fits(r.state.bids) && Fits(r.state.asks)
  {
    GoodSizes(s);
    hide Good, Agrees, LevelsOk, Fits, ApplyAll, Step, BookOk;
    var r := Step(s, cmd);
    if Fits(r.state.bids) && Fits(r.state.asks) {
      BatchAgreement(v, s, cmd);
    } else if Agrees(ApplyAll(v, r.events), r.state) {
      AgreesFits(ApplyAll(v, r.events), r.state);
    }
  }

  lemma EmptyShallow()
    ensures Shallow([])
  {
    assert Prices([]) == {};
  }

  /** Reports of a redelivered stream merge just as well: a repeat reports nothing and changes no level. */
  lemma {:induction false} MergesRedelivered(full: seq<Event>, d: seq<Event>)
    requires Delivers(full, d) && MergesAll(BLANK, full)
    ensures MergesAll(BLANK, d)
  {
    hide *;
    if d == [] {
      ApplyNone(BLANK);
    } else {
      var front, e := d[..|d| - 1], d[|d| - 1];
      assert d == front + [e];
      DeliveredLast(full, front, e);
      MergesRedelivered(full, front);
      RedeliveryIgnored(full, front);
      DedupIsPrefix(full, front);
      ApplyLast(BLANK, front, e);
      if e.seqNo > High(front) {
        NextMerges(full, High(front));
      } else {
        RepeatMerges(ApplyAll(BLANK, front), e);
      }
    }
  }

  lemma NextMerges(full: seq<Event>, n: nat)
    requires MergesAll(BLANK, full) && n < |full|
    ensures var v := ApplyAll(BLANK, full[..n]); Merges(v, Applied(v, full[n]))
  {
    hide *;
    MergesPrefix(BLANK, full, n + 1);
    assert full[..n + 1] == full[..n] + [full[n]];
    ApplyLast(BLANK, full[..n], full[n]);
  }

  lemma RepeatMerges(v: View, e: Event)
    requires e.seqNo <= v.lastSeq
    ensures Merges(v, Applied(v, e))
  {
  }

  lemma {:induction false} MergesPrefix(v: View, d: seq<Event>, n: nat)
    requires MergesAll(v, d) && n <= |d|
    ensures MergesAll(v, d[..n])
  {
    if n < |d| {
      MergesPrefix(v, d[..|d| - 1], n);
      assert d[..|d| - 1][..n] == d[..n];
    } else {
      assert d[..n] == d;
    }
  }

  /** Any redelivery of the run's events leaves the replica in agreement with the engine, and every reported
      change list turns the old depth into the new one. */
  lemma ReplicaFollowsEngine(log: seq<Command>, d: seq<Event>)
    requires Shallow(log) && Delivers(Emitted(log), d) && High(d) == |Emitted(log)|
    ensures Agrees(ApplyAll(BLANK, d), After(log)) && MergesAll(BLANK, d)
  {
    hide *;
    RunAgreement(log);
    RedeliveryIgnored(Emitted(log), d);
    DedupIsPrefix(Emitted(log), d);
    assert Emitted(log)[..|Emitted(log)|] == Emitted(log);
    MergesRedelivered(Emitted(log), d);
  }

  // ---------- a book that is too deep ----------

  function RungPlace(n: nat): PlaceCommand
    requires n < U64_MODULUS
  {
    PlaceCommand(n, 7, Bid, Limit, Gtc, NoStp, false, Some(n), 1)
  }

  /** Bids for one unit each, at prices 1 to n. */
  function Rungs(n: nat): seq<Command>
    requires n < U64_MODULUS
  {
    if n == 0 then [] else Rungs(n - 1) + [Place(RungPlace(n))]
  }

  function RungOrders(n: nat): seq<Order>
    requires n < U64_MODULUS
  {
    if n == 0 then [] else [Order(n, 7, n, 1, 1)] + RungOrders(n - 1)
  }

  ghost predicate RungState(s: State, n: nat)
    requires n < U64_MODULUS
  {
    s.bids == RungOrders(n) && s.asks == [] && forall id | id in s.seen :: id <= n
  }

  lemma {:induction false} RungBook(n: nat)
    requires n < U64_MODULUS
    ensures RungState(After(Rungs(n)), n)
  {
    hide *;
    if n == 0 {
      NoRung();
    } else {
      RungAppend(n);
      RungBook(n - 1);
      AfterOne(Rungs(n - 1), Place(RungPlace(n)));
      NextRung(After(Rungs(n - 1)), n);
    }
  }

  lemma NoRung()
    ensures RungState(After(Rungs(0)), 0)
  {
    hide Step;
  }

  lemma RungAppend(n: nat)
    requires 0 < n < U64_MODULUS
    ensures Rungs(n) == Rungs(n - 1) + [Place(RungPlace(n))]
  {
  }

  lemma NextRung(s: State, n: nat)
    requires 0 < n < U64_MODULUS && Good(s) && RungState(s, n - 1)
    ensures RungState(Step(s, Place(RungPlace(n))).state, n)
  {
  }

  lemma {:induction false} RungLevels(n: nat)
    requires n < U64_MODULUS
    ensures |Prices(RungOrders(n))| == n && forall px | px in Prices(RungOrders(n)) :: px <= n
  {
    if n == 0 {
      assert Prices(RungOrders(0)) == {};
    } else {
      RungLevels(n - 1);
      OneMorePrice(Order(n, 7, n, 1, 1), RungOrders(n - 1));
      hide Prices;
      assert n !in Prices(RungOrders(n - 1));
    }
  }

  lemma OneMorePrice(o: Order, os: seq<Order>)
    ensures Prices([o] + os) == Prices(os) + {o.price}
  {
    assert ([o] + os)[0] == o && ([o] + os)[1..] == os;
    assert forall x :: x in [o] + os <==> x == o || x in os;
  }

  lemma {:induction false} RungTotal(n: nat, px: Px)
    requires n < U64_MODULUS
    ensures Total(RungOrders(n), px) <= n
  {
    if n > 0 {
      RungTotal(n - 1, px);
    }
  }

  lemma RungFits(n: nat)
    requires n < U64_MODULUS
    ensures Fits(After(Rungs(n)).bids) && Fits(After(Rungs(n)).asks)
    ensures LevelsOk(After(Rungs(n))) <==> n <= MAX_LEVELS
  {
    RungBook(n);
    RungLevels(n);
    hide After, RungOrders;
    forall px: Px {
      RungTotal(n, px);
    }
    assert Prices([]) == {};
  }

  lemma {:induction false} RungsShallow(n: nat)
    requires n <= MAX_LEVELS
    ensures Shallow(Rungs(n))
  {
    hide After, LevelsOk, Fits, Shallow, Rungs, RungPlace;
    RungFits(n);
    if n == 0 {
      NoRungs();
    } else {
      RungsShallow(n - 1);
      RungAppend(n);
      ShallowLast(Rungs(n - 1), Place(RungPlace(n)));
    }
    ShallowNone();
  }

  lemma NoRungs()
    ensures Rungs(0) == []
  {
  }

  lemma ShallowNone()
    ensures LevelsOk(After([])) && Fits(After([]).bids) && Fits(After([]).asks) ==> Shallow([])
  {
    hide After, LevelsOk, Fits;
  }

  lemma ShallowLast(log: seq<Command>, cmd: Command)
    ensures var s := After(log + [cmd]);
            Shallow(log + [cmd]) <==> Shallow(log) && LevelsOk(s) && Fits(s.bids) && Fits(s.asks)
  {
    hide After, LevelsOk, Fits;
    assert (log + [cmd])[..|log|] == log;
  }

  /** The limit is reached: after 200 price levels all is well, the 201st leaves the replica wrong. */
  lemma DeepBookDisagrees()
    ensures AgreesThroughout(Rungs(200)) && !AgreesThroughout(Rungs(201))
  {
    RungsShallow(MAX_LEVELS);
    RunAgreementIff(Rungs(MAX_LEVELS));
    RungFits(MAX_LEVELS + 1);
    RunAgreementIff(Rungs(MAX_LEVELS + 1));
    hide After, Rungs, LevelsOk, Fits, AgreesThroughout;
  }

  /** An agreeing replica shows the engine's touch, and it is never crossed. */
  lemma TouchAgrees(v: View, s: State, side: Side)
    requires Good(s) && Agrees(v, s)
    ensures v.On(side) == map[] <==> s.On(side) == []
    ensures s.On(side) != [] ==> Best(side, v.On(side).Keys) == s.On(side)[0].price
    ensures v.bidDepth != map[] && v.askDepth != map[] ==> Best(Bid, v.bidDepth.Keys) < Best(Ask, v.askDepth.Keys)
  {
    OneTouch(v.bidDepth, s.bids, Bid);
    OneTouch(v.askDepth, s.asks, Ask);
  }

  lemma OneTouch(d: Depth, os: seq<Order>, side: Side)
    requires DepthAgrees(d, os) && BookOk(os) && Sorted(side, os)
    ensures d == map[] <==> os == []
    ensures os != [] ==> Best(side, d.Keys) == os[0].price
  {
    DepthKeys(d, os);
    if os == [] {
      assert d.Keys == {};
    } else {
      assert os[0] in os && os[0].price in d;
      var b := Best(side, d.Keys);
      assert b in Prices(os);
      var o :| o in os && o.price == b;
      assert !Better(side, o.price, os[0].price);
    }
  }
}
