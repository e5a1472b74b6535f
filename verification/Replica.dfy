/**
 * The market service's copy of the book, rebuilt from events: resting orders by id and total depth by
 * price.  Methods update the fields in place; the functions beside them say what they compute.
 */
module Replica {
  import opened Protocol
  import opened Book
  import opened Levels
  import opened Delivery
  import opened Sums

  const MAX_LEVELS := 200

  datatype RestingOrder = RestingOrder(price: Px, remaining: U64)

  type Depth = map<Px, U64>

  /** One changed price level; a zero total means the level is gone. */
  datatype ChangedLevel = ChangedLevel(side: Side, price: Px, total: U64)

  datatype View = View(resting: map<Id, RestingOrder>, bidDepth: Depth, askDepth: Depth, lastSeq: nat) {
    function On(side: Side): Depth {
      if side.Bid? then bidDepth else askDepth
    }

    function With(side: Side, d: Depth): View {
      if side.Bid? then this.(bidDepth := d) else this.(askDepth := d)
    }
  }

  const BLANK := View(map[], map[], map[], 0)

  function Wrap(x: int): U64 {
    x % U64_MODULUS
  }

  function Get(d: Depth, px: Px): U64 {
    if px in d then d[px] else 0
  }

  function Lowered(d: Depth, px: Px, remaining: U64): Depth {
    var total := if remaining > Get(d, px) then 0 else Get(d, px) - remaining;
    if total == 0 then d - {px} else d[px := total]
  }

  /** Keeps the best n levels. */
  function Trimmed(side: Side, d: Depth, n: nat): Depth
    decreases |d|
  {
    if |d| <= n then d
    else
      var worst := Best(side.Opposite(), d.Keys);
      Fewer(d, worst);
      Trimmed(side, d - {worst}, n)
  }

  lemma Fewer(d: Depth, px: Px)
    requires px in d
    ensures |d - {px}| == |d| - 1
  {
  }

  datatype Change = Change(view: View, levels: seq<ChangedLevel>)

  function Without(v: View, side: Side, id: Id): View
    requires id in v.resting
  {
    var was := v.resting[id];
    v.With(side, Lowered(v.On(side), was.price, was.remaining)).(resting := v.resting - {id})
  }

  function Added(v: View, side: Side, id: Id, px: Px, remaining: U64): Change {
    var d := v.On(side)[px := Wrap(Get(v.On(side), px) + remaining)];
    var kept := Trimmed(side, d, MAX_LEVELS);
    Change(v.With(side, kept).(resting := v.resting[id := RestingOrder(px, remaining)]),
           [ChangedLevel(side, px, Get(kept, px))])
  }

  function Adjusted(v: View, side: Side, id: Id, remaining: U64): Change
    requires id in v.resting
  {
    var was := v.resting[id];
    var total := Wrap(Get(v.On(side), was.price) + remaining - was.remaining);
    Change(v.With(side, v.On(side)[was.price := total])
            .(resting := v.resting[id := RestingOrder(was.price, remaining)]),
           [ChangedLevel(side, was.price, total)])
  }

  function Updated(v: View, u: OrderUpdate): Change {
    var remaining := Wrap(u.qty - u.filledQty);
    var inBook := u.orderId in v.resting;
    if !Terminal(u.status) then
      if inBook && u.price.Some? && v.resting[u.orderId].price == u.price.value then
        Adjusted(v, u.side, u.orderId, remaining)
      else
        var v' := if inBook then Without(v, u.side, u.orderId) else v;
        if u.price.None? then Change(v', []) else Added(v', u.side, u.orderId, u.price.value, remaining)
    else if inBook then
      var v' := Without(v, u.side, u.orderId);
      var px := v.resting[u.orderId].price;
      Change(v', [ChangedLevel(u.side, px, Get(v'.On(u.side), px))])
    else Change(v, [])
  }

  /** A known sequence number is skipped; a trade only moves the number on. */
  function Applied(v: View, e: Event): Change {
    if e.seqNo <= v.lastSeq then Change(v, [])
    else
      var v' := v.(lastSeq := e.seqNo);
      match e.kind
      case TradeMade(_) => Change(v', [])
      case OrderChanged(u) => Updated(v', u)
  }

  function ApplyAll(v: View, d: seq<Event>): View {
    if d == [] then v else Applied(ApplyAll(v, d[..|d| - 1]), d[|d| - 1]).view
  }

  class SymbolState {
    var resting: map<Id, RestingOrder>
    var bidDepth: Depth
    var askDepth: Depth
    var lastSeq: nat

    ghost function Value(): View
      reads this
    {
      View(resting, bidDepth, askDepth, lastSeq)
    }

    constructor ()
      ensures Value() == BLANK
    {
      resting, bidDepth, askDepth, lastSeq := map[], map[], map[], 0;
    }

    function DepthOf(side: Side): Depth
      reads this
    {
      if side.Bid? then bidDepth else askDepth
    }

    method SetDepth(side: Side, d: Depth)
      modifies this`bidDepth, this`askDepth
      ensures Value() == old(Value()).With(side, d)
    {
      if side.Bid? {
        bidDepth := d;
      } else {
        askDepth := d;
      }
    }

    method Apply(e: Event) returns (levels: seq<ChangedLevel>)
      modifies this
      ensures Change(Value(), levels) == Applied(old(Value()), e)
    {
      levels := [];
      if e.seqNo <= lastSeq {
        return;
      }
      lastSeq := e.seqNo;
      match e.kind
      case OrderChanged(u) => levels := ApplyOrderUpdate(u);
      case TradeMade(_) =>
    }

    method ApplyOrderUpdate(u: OrderUpdate) returns (levels: seq<ChangedLevel>)
      modifies this`resting, this`bidDepth, this`askDepth
      ensures Change(Value(), levels) == Updated(old(Value()), u)
    {
      hide Trimmed, Lowered, Wrap;
      var remaining := Wrap(u.qty - u.filledQty);
      var inBook := u.orderId in resting;
      if !Terminal(u.status) {
        if inBook {
          var was := resting[u.orderId];
          if u.price.None? || was.price != u.price.value {
            RemoveLevel(u.side, was.price, was.remaining, u.orderId);
            inBook := false;
          } else {
            var total := Wrap(Get(DepthOf(u.side), was.price) + remaining - was.remaining);
            SetDepth(u.side, DepthOf(u.side)[was.price := total]);
            resting := resting[u.orderId := RestingOrder(was.price, remaining)];
            return [ChangedLevel(u.side, was.price, total)];
          }
        }
        if u.price.None? {
          return [];
        }
        var px := u.price.value;
        resting := resting[u.orderId := RestingOrder(px, remaining)];
        SetDepth(u.side, DepthOf(u.side)[px := Wrap(Get(DepthOf(u.side), px) + remaining)]);
        Trim(u.side);
        levels := [ChangedLevel(u.side, px, Get(DepthOf(u.side), px))];
      } else if inBook {
        var was := resting[u.orderId];
        RemoveLevel(u.side, was.price, was.remaining, u.orderId);
        levels := [ChangedLevel(u.side, was.price, Get(DepthOf(u.side), was.price))];
      } else {
        levels := [];
      }
    }

    method RemoveLevel(side: Side, price: Px, remaining: U64, id: Id)
      requires id in resting && resting[id] == RestingOrder(price, remaining)
      modifies this`resting, this`bidDepth, this`askDepth
      ensures Value() == Without(old(Value()), side, id)
    {
      var d := DepthOf(side);
      var cut := if remaining > Get(d, price) then Get(d, price) else remaining;
      var total := Get(d, price) - cut;
      d := d[price := total];
      if total == 0 {
        d := d - {price};
      }
      assert d == Lowered(old(Value()).On(side), price, remaining);
      SetDepth(side, d);
      resting := resting - {id};
    }

    /** Drops the worst levels until MAX_LEVELS are left. */
    method Trim(side: Side)
      modifies this`bidDepth, this`askDepth
      ensures Value() == old(Value()).With(side, Trimmed(side, old(Value()).On(side), MAX_LEVELS))
    {
      var d := DropWorst(side, DepthOf(side), MAX_LEVELS);
      SetDepth(side, d);
    }
  }

  method DropWorst(side: Side, depth: Depth, n: nat) returns (d: Depth)
    ensures d == Trimmed(side, depth, n)
  {
    d := depth;
    while |d| > n
      invariant Trimmed(side, d, n) == Trimmed(side, depth, n)
      decreases |d|
    {
      TrimStep(side, d, n);
      d := d - {Best(side.Opposite(), d.Keys)};
    }
  }

  lemma TrimStep(side: Side, d: Depth, n: nat)
    ensures |d| <= n ==> Trimmed(side, d, n) == d
    ensures |d| > n ==>
              var worst := Best(side.Opposite(), d.Keys);
              |d - {worst}| == |d| - 1 && Trimmed(side, d, n) == Trimmed(side, d - {worst}, n)
  {
  }

  // ---------- snapshots ----------

  predicate Listed(out: seq<(Px, U64)>, p: Px) {
    exists i :: 0 <= i < |out| && out[i].0 == p
  }

  predicate BestFirst(side: Side, out: seq<(Px, U64)>) {
    forall i, j :: 0 <= i < j < |out| ==> Better(side, out[i].0, out[j].0)
  }

  predicate AllBetter(side: Side, out: seq<(Px, U64)>, p: Px) {
    forall i :: 0 <= i < |out| ==> Better(side, out[i].0, p)
  }

  /** The listed levels are stored ones, best first, and every level not listed is worse than all of them. */
  predicate Snapshot(side: Side, d: Depth, out: seq<(Px, U64)>) {
    && (forall i :: 0 <= i < |out| ==> out[i].0 in d && d[out[i].0] == out[i].1)
    && BestFirst(side, out)
    && forall p | p in d :: Listed(out, p) || AllBetter(side, out, p)
  }

  /** The snapshot's rows: the best `limit` levels, or all when it is zero. */
  method TopLevels(side: Side, d: Depth, limit: nat) returns (out: seq<(Px, U64)>)
    ensures |out| == (if limit > 0 then Min(|d|, limit) else |d|) && Snapshot(side, d, out)
  {
    var n := if 0 < limit < |d| then limit else |d|;
    var rest := d;
    out := [];
    while |out| < n
      invariant |out| <= n && |rest| == |d| - |out|
      invariant Snapshot(side, d, out)
      invariant forall p :: p in rest <==> p in d && !Listed(out, p)
    {
      SomeLevel(rest);
      var px := Best(side, rest.Keys);
      SnapshotGrows(side, d, out, rest.Keys, px);
      Fewer(rest, px);
      out := out + [(px, d[px])];
      rest := rest - {px};
    }
  }

  lemma SnapshotGrows(side: Side, d: Depth, out: seq<(Px, U64)>, rest: set<Px>, px: Px)
    requires Snapshot(side, d, out) && forall p :: p in rest <==> p in d && !Listed(out, p)
    requires px in rest && forall q | q in rest :: !Better(side, q, px)
    ensures Snapshot(side, d, out + [(px, d[px])])
    ensures forall p :: Listed(out + [(px, d[px])], p) <==> Listed(out, p) || p == px
  {
    var out' := out + [(px, d[px])];
    forall p
      ensures Listed(out', p) <==> Listed(out, p) || p == px
    {
      if Listed(out, p) {
        var i :| 0 <= i < |out| && out[i].0 == p;
        assert out'[i].0 == p;
      }
      assert out'[|out|].0 == px;
    }
    assert AllBetter(side, out, px);
  }

  lemma SomeLevel(d: Depth)
    ensures |d| > 0 <==> d.Keys != {}
  {
  }

  // ---------- redelivery ----------

  /** However often events are repeated, the replica sees each one once. */
  lemma {:induction false} RedeliveryIgnored(full: seq<Event>, d: seq<Event>)
    requires Delivers(full, d)
    ensures ApplyAll(BLANK, d) == ApplyAll(BLANK, Dedup(d)) && ApplyAll(BLANK, d).lastSeq == High(d)
  {
    if d != [] {
      var front := d[..|d| - 1];
      var e := d[|d| - 1];
      RedeliveryIgnored(full, front);
      SeqAdvances(ApplyAll(BLANK, front), e);
      if e.seqNo > High(front) {
        assert (Dedup(front) + [e])[..|Dedup(front)|] == Dedup(front);
      }
    }
  }

  lemma SeqAdvances(v: View, e: Event)
    ensures Applied(v, e).view.lastSeq == if e.seqNo > v.lastSeq then e.seqNo else v.lastSeq
  {
  }

  /** Trimming keeps at most n levels and never drops a level better than one it keeps. */
  lemma {:induction false} TrimKeepsBest(side: Side, d: Depth, n: nat)
    ensures var t := Trimmed(side, d, n);
            && |t| == Min(|d|, n)
            && (forall p :: p in t ==> p in d && t[p] == d[p])
            && (forall p, q :: p in t && q in d && q !in t ==> !(if side.Bid? then q > p else q < p))
    decreases |d|
  {
    if |d| > n {
      var worst := Best(side.Opposite(), d.Keys);
      Fewer(d, worst);
      TrimKeepsBest(side, d - {worst}, n);
    }
  }

  // ---------- one update ----------

  predicate Over(u: OrderUpdate) {
    u.status == Filled || u.status == Canceled || u.status == Rejected
  }

  /** The order's rest at a price, as far as the replica knows. */
  function RestAt(v: View, id: Id, px: Px): U64 {
    if id in v.resting && v.resting[id].price == px then v.resting[id].remaining else 0
  }

  /** What the update leaves at a price: without the order's old rest, with its new one. */
  function Leaves(v: View, u: OrderUpdate, px: Px): U64 {
    Wrap(Get(v.On(u.side), px) - RestAt(v, u.orderId, px)
         + if !Over(u) && u.price == Some(px) then u.qty - u.filledQty else 0)
  }

  /** The order rests iff it is not over and has a price, every level changes by what the order leaves and brings, and
      the other side not at all. */
  ghost predicate Shifted(v: View, v': View, u: OrderUpdate) {
    && v'.resting == (if !Over(u) && u.price.Some?
                      then v.resting[u.orderId := RestingOrder(u.price.value, Wrap(u.qty - u.filledQty))]
                      else v.resting - {u.orderId})
    && (forall px: Px :: Get(v'.On(u.side), px) == Leaves(v, u, px))
    && v'.On(u.side.Opposite()) == v.On(u.side.Opposite()) && v'.lastSeq == v.lastSeq
  }

  /** One rule for every kind of update, as long as the old rest is in its level and no level has to be dropped. */
  lemma UpdateIs(v: View, u: OrderUpdate)
    requires u.orderId in v.resting ==>
               v.resting[u.orderId].remaining <= Get(v.On(u.side), v.resting[u.orderId].price)
    requires |v.On(u.side).Keys + (if u.price.Some? then {u.price.value} else {})| <= 200
    ensures Shifted(v, Updated(v, u).view, u)
  {
    hide *;
    var id, rest := u.orderId, Wrap(u.qty - u.filledQty);
    var v1 := if id in v.resting then Without(v, u.side, id) else v;
    TakenOut(v, u.side, id);
    UpdatedIs(v, u, v1);
    if Over(u) || u.price.None? {
      StaysOut(v, v1, u);
    } else if id in v.resting && v.resting[id].price == u.price.value {
      Stays(v, u);
    } else {
      KeysLeft(v, v1, u.side, id);
      FewerKeys(v1.On(u.side), v.On(u.side), u.price.value);
      PutBack(v, v1, u);
    }
  }

  lemma KeysLeft(v: View, v1: View, side: Side, id: Id)
    requires Out(v, v1, side, id)
    ensures v1.On(side).Keys <= v.On(side).Keys
  {
  }

  lemma UpdatedIs(v: View, u: OrderUpdate, v1: View)
    requires v1 == if u.orderId in v.resting then Without(v, u.side, u.orderId) else v
    ensures var rest := Wrap(u.qty - u.filledQty);
            Updated(v, u).view
            == if Over(u) || u.price.None? then v1
               else if u.orderId in v.resting && v.resting[u.orderId].price == u.price.value then
                 Adjusted(v, u.side, u.orderId, rest).view
               else Added(v1, u.side, u.orderId, u.price.value, rest).view
  {
    hide Without, Added, Adjusted, Wrap;
  }

  /** The order and its rest are gone. */
  ghost predicate Out(v: View, v1: View, side: Side, id: Id) {
    && v1.resting == v.resting - {id} && v1.On(side).Keys <= v.On(side).Keys
    && (forall px: Px :: Get(v1.On(side), px) == Get(v.On(side), px) - RestAt(v, id, px))
    && v1.On(side.Opposite()) == v.On(side.Opposite()) && v1.lastSeq == v.lastSeq
  }

  lemma TakenOut(v: View, side: Side, id: Id)
    requires id in v.resting ==> v.resting[id].remaining <= Get(v.On(side), v.resting[id].price)
    ensures Out(v, if id in v.resting then Without(v, side, id) else v, side, id)
  {
    if id in v.resting {
      WithoutIs(v, side, id);
      hide Without;
    }
  }

  lemma StaysOut(v: View, v1: View, u: OrderUpdate)
    requires Out(v, v1, u.side, u.orderId) && (Over(u) || u.price.None?)
    ensures Shifted(v, v1, u)
  {
    forall px: Px
      ensures Get(v1.On(u.side), px) == Leaves(v, u, px)
    {
      WrapOnce(Get(v.On(u.side), px), RestAt(v, u.orderId, px), 0);
    }
    hide Wrap;
  }

  lemma Stays(v: View, u: OrderUpdate)
    requires u.orderId in v.resting && u.price == Some(v.resting[u.orderId].price) && !Over(u)
    requires v.resting[u.orderId].remaining <= Get(v.On(u.side), v.resting[u.orderId].price)
    ensures Shifted(v, Adjusted(v, u.side, u.orderId, Wrap(u.qty - u.filledQty)).view, u)
  {
    hide Wrap;
    var v' := Adjusted(v, u.side, u.orderId, Wrap(u.qty - u.filledQty)).view;
    AdjustedIs(v, u.side, u.orderId, Wrap(u.qty - u.filledQty));
    hide Adjusted;
    forall px: Px
      ensures Get(v'.On(u.side), px) == Leaves(v, u, px)
    {
      WrapOnce(Get(v.On(u.side), px), RestAt(v, u.orderId, px), u.qty - u.filledQty);
    }
  }

  lemma PutBack(v: View, v1: View, u: OrderUpdate)
    requires Out(v, v1, u.side, u.orderId) && u.price.Some? && !Over(u)
    requires |v1.On(u.side).Keys + {u.price.value}| <= 200
    ensures Shifted(v, Added(v1, u.side, u.orderId, u.price.value, Wrap(u.qty - u.filledQty)).view, u)
  {
    hide *;
    var rest := Wrap(u.qty - u.filledQty);
    AddedIs(v1, u.side, u.orderId, u.price.value, rest);
    IsPutBack(v, v1, Added(v1, u.side, u.orderId, u.price.value, rest).view, u);
  }

  lemma IsPutBack(v: View, v1: View, v': View, u: OrderUpdate)
    requires Out(v, v1, u.side, u.orderId) && u.price.Some? && !Over(u)
    requires v'.resting == v1.resting[u.orderId := RestingOrder(u.price.value, Wrap(u.qty - u.filledQty))]
    requires forall q: Px :: Get(v'.On(u.side), q)
               == if q == u.price.value then Wrap(Get(v1.On(u.side), q) + Wrap(u.qty - u.filledQty))
                  else Get(v1.On(u.side), q)
    requires v'.On(u.side.Opposite()) == v1.On(u.side.Opposite()) && v'.lastSeq == v1.lastSeq
    ensures Shifted(v, v', u)
  {
    hide Wrap, Get;
    MapBack(v.resting, u.orderId, RestingOrder(u.price.value, Wrap(u.qty - u.filledQty)));
    forall px: Px
      ensures Get(v'.On(u.side), px) == Leaves(v, u, px)
    {
      WrapOnce(Get(v.On(u.side), px), RestAt(v, u.orderId, px), u.qty - u.filledQty);
    }
  }

  lemma MapBack(m: map<Id, RestingOrder>, id: Id, x: RestingOrder)
    ensures (m - {id})[id := x] == m[id := x]
  {
  }

  lemma WrapOnce(total: U64, out: U64, back: int)
    requires out <= total
    ensures Wrap(total - out) == total - out && Wrap(total - out + Wrap(back)) == Wrap(total - out + back)
  {
    ModInside(total - out, back);
  }

  lemma ModInside(x: int, y: int)
    ensures (x + y % U64_MODULUS) % U64_MODULUS == (x + y) % U64_MODULUS
  {
  }

  lemma WithoutIs(v: View, side: Side, id: Id)
    requires id in v.resting && v.resting[id].remaining <= Get(v.On(side), v.resting[id].price)
    ensures var v', was := Without(v, side, id), v.resting[id];
            && v'.resting == v.resting - {id} && v'.On(side).Keys <= v.On(side).Keys
            && (forall px: Px :: Get(v'.On(side), px)
                  == Get(v.On(side), px) - if px == was.price then was.remaining else 0)
            && v'.On(side.Opposite()) == v.On(side.Opposite()) && v'.lastSeq == v.lastSeq
  {
  }

  /** Taking out more than is there empties the level, and an empty level is gone. */
  lemma LoweredIs(d: Depth, px: Px, remaining: U64)
    ensures var d' := Lowered(d, px, remaining);
            && Get(d', px) == (if Get(d, px) <= remaining then 0 else Get(d, px) - remaining)
            && (px in d' <==> remaining < Get(d, px))
            && forall q | q != px :: (q in d' <==> q in d) && (q in d ==> d'[q] == d[q])
  {
  }

  lemma AdjustedIs(v: View, side: Side, id: Id, remaining: U64)
    requires id in v.resting
    ensures var v', was := Adjusted(v, side, id, remaining).view, v.resting[id];
            && v'.resting == v.resting[id := RestingOrder(was.price, remaining)]
            && (forall px: Px :: Get(v'.On(side), px)
                  == if px == was.price then Wrap(Get(v.On(side), px) - was.remaining + remaining)
                     else Get(v.On(side), px))
            && v'.On(side.Opposite()) == v.On(side.Opposite()) && v'.lastSeq == v.lastSeq
  {
    hide Wrap;
    assert Get(v.On(side), v.resting[id].price) + remaining - v.resting[id].remaining
        == Get(v.On(side), v.resting[id].price) - v.resting[id].remaining + remaining;
  }

  lemma AddedIs(v: View, side: Side, id: Id, px: Px, remaining: U64)
    requires |v.On(side).Keys + {px}| <= 200
    ensures var v' := Added(v, side, id, px, remaining).view;
            && v'.resting == v.resting[id := RestingOrder(px, remaining)]
            && (forall q: Px :: Get(v'.On(side), q)
                  == if q == px then Wrap(Get(v.On(side), q) + remaining) else Get(v.On(side), q))
            && v'.On(side.Opposite()) == v.On(side.Opposite()) && v'.lastSeq == v.lastSeq
  {
    hide Wrap, Trimmed;
    var d := v.On(side)[px := Wrap(Get(v.On(side), px) + remaining)];
    assert d.Keys == v.On(side).Keys + {px};
    NotTrimmed(side, d);
    GetPut(v.On(side), px, Wrap(Get(v.On(side), px) + remaining));
    hide Get;
  }

  lemma GetPut(d: Depth, px: Px, x: U64)
    ensures forall q: Px :: Get(d[px := x], q) == if q == px then x else Get(d, q)
  {
    forall q: Px
      ensures Get(d[px := x], q) == if q == px then x else Get(d, q)
    {
    }
  }

  lemma NotTrimmed(side: Side, d: Depth)
    requires |d.Keys| <= 200
    ensures Trimmed(side, d, MAX_LEVELS) == d
  {
    assert |d| == |d.Keys|;
  }

  lemma FewerKeys(d: Depth, d': Depth, px: Px)
    requires d.Keys <= d'.Keys
    ensures |d.Keys + {px}| <= |d'.Keys + {px}|
  {
    SubsetSize(d.Keys + {px}, d'.Keys + {px});
  }

  /** What is reported: the level the order is in now, or else the one it has left, each with its new total; nothing
      for an order without a price, or one that is over and was not in the book. */
  lemma ReportIs(v: View, u: OrderUpdate)
    ensures var c := Updated(v, u);
            c.levels
            == if !Over(u) then
                 (if u.price == None then []
                  else [ChangedLevel(u.side, u.price.value, Get(c.view.On(u.side), u.price.value))])
               else if u.orderId in v.resting then
                 [ChangedLevel(u.side, v.resting[u.orderId].price, Get(c.view.On(u.side), v.resting[u.orderId].price))]
               else []
  {
    hide Trimmed, Lowered, Wrap;
  }

  /** Known numbers change nothing, and a trade only moves the number on. */
  lemma EventIs(v: View, e: Event)
    ensures e.seqNo <= v.lastSeq ==> Applied(v, e) == Change(v, [])
    ensures v.lastSeq < e.seqNo && e.kind.TradeMade? ==> Applied(v, e) == Change(v.(lastSeq := e.seqNo), [])
    ensures v.lastSeq < e.seqNo && e.kind.OrderChanged? ==>
              Applied(v, e) == Updated(v.(lastSeq := e.seqNo), e.kind.update)
  {
  }
}
