/**
 * When order statuses converge, exactly: consecutive updates of an order never say the same, so a row agrees
 * with once-only delivery iff its order has ended or the last update read is the highest-numbered one.
 */
module Convergence {
  import opened Protocol
  import opened Book
  import opened History
  import opened Duplicates
  import opened Delivery
  import opened Runner
  import opened Recovery
  import opened StatusSync

  // ---------- no two updates of an order agree ----------

  predicate NoUpdates(ev: seq<Event>, id: Id) {
    forall k :: 0 <= k < |ev| ==> !Updates(ev[k], id)
  }

  /** An update is terminal, follows a trade of its order at once, or is its order's first. */
  predicate PacedAt(ev: seq<Event>, e: Event) {
    e.kind.OrderChanged? ==>
      || Terminal(e.kind.update.status)
      || (ev != [] && ev[|ev| - 1].kind.TradeMade? && Names(ev[|ev| - 1], e.kind.update.orderId))
      || NoUpdates(ev, e.kind.update.orderId)
  }

  predicate Paced(ev: seq<Event>) {
    ev == [] || (Paced(ev[..|ev| - 1]) && PacedAt(ev[..|ev| - 1], ev[|ev| - 1]))
  }

  lemma PacedAppend(ev: seq<Event>, e: Event)
    ensures Paced(ev + [e]) <==> Paced(ev) && PacedAt(ev, e)
  {
    assert (ev + [e])[..|ev|] == ev;
  }

  lemma {:induction false} PacedFills(p: PlaceCommand, fills: seq<Fill>, lastTrade: nat, lastSeq: nat, ev: seq<Event>)
    requires FillsOk(fills) && Paced(ev) && NoUpdates(ev, p.orderId)
    requires forall f | f in fills :: f.maker.id != p.orderId
    ensures var ev' := ev + FillEvents(p, fills, lastTrade, lastSeq); Paced(ev') && NoUpdates(ev', p.orderId)
    decreases |fills|
  {
    if fills == [] {
      assert ev + [] == ev;
    } else {
      hide Paced;
      var t := Event(lastSeq + 1, TradeMade(TradeOf(p, fills[0], lastTrade + 1)));
      var u := Event(lastSeq + 2, OrderChanged(MakerUpdate(p, fills[0])));
      PacedAppend(ev, t);
      PacedAppend(ev + [t], u);
      var rest := FillEvents(p, fills[1..], lastTrade + 1, lastSeq + 2);
      PacedFills(p, fills[1..], lastTrade + 1, lastSeq + 2, ev + [t] + [u]);
      assert ev + FillEvents(p, fills, lastTrade, lastSeq) == (ev + [t] + [u]) + rest;
    }
  }

  /** Updates name known orders only. */
  lemma UnknownUpdates(orders: Orders, ev: seq<Event>, id: Id)
    requires LifeCycle(orders, ev) && id !in orders
    ensures NoUpdates(ev, id)
  {
    forall k | 0 <= k < |ev|
      ensures !Updates(ev[k], id)
    {
      LifeCycleAt(orders, ev, k);
    }
  }

  lemma PacedPlace(s: State, ev: seq<Event>, p: PlaceCommand)
    requires Good(s) && Paced(ev) && p.orderId !in s.seen && NoUpdates(ev, p.orderId)
    ensures Paced(ev + DoPlace(s, p).events)
  {
    hide Paced, Match;
    var s' := s.(seen := s.seen + {p.orderId});
    var os := s'.On(p.side.Opposite());
    if Admit(p, os).None? {
      PacedAppend(ev, DoPlace(s, p).events[0]);
    } else {
      var limit := LimitOf(p);
      var sweep := Match(p, limit, os, p.qty);
      MatchBounds(p, limit, os, p.qty);
      MakersSeen(s, p, sweep);
      var fills := FillEvents(p, sweep.fills, s.lastTrade, s.lastSeq);
      PacedFills(p, sweep.fills, s.lastTrade, s.lastSeq, ev);
      var swept := AfterSweep(s', p, sweep);
      var last := Event(swept.lastSeq + 1, OrderChanged(TakerUpdate(p, limit, sweep)));
      PacedAppend(ev + fills, last);
      assert ev + (fills + [last]) == (ev + fills) + [last];
    }
  }

  lemma MakersSeen(s: State, p: PlaceCommand, sweep: Sweep)
    requires Good(s) && p.orderId !in s.seen
    requires forall f | f in sweep.fills :: f.maker in s.On(p.side.Opposite())
    ensures forall f | f in sweep.fills :: f.maker.id != p.orderId
  {
    forall f | f in sweep.fills
      ensures f.maker.id != p.orderId
    {
      assert f.maker in s.bids + s.asks;
    }
  }

  lemma PacedCancel(s: State, ev: seq<Event>, id: Id)
    requires Good(s) && Paced(ev)
    ensures Paced(ev + DoCancel(s, id).events)
  {
    var events := DoCancel(s, id).events;
    if events == [] {
      assert ev + events == ev;
    } else {
      PacedAppend(ev, events[0]);
      assert events == [events[0]];
    }
  }

  lemma {:induction false} RunPaced(log: seq<Command>)
    ensures Paced(Emitted(log))
  {
    if log != [] {
      var front, last := log[..|log| - 1], log[|log| - 1];
      RunPaced(front);
      RunHist(front);
      hide Paced, Good, LifeCycle, DoPlace, DoCancel;
      match last
      case Place(p) =>
        if p.orderId !in After(front).seen {
          UnknownUpdates(Known(front), Emitted(front), p.orderId);
          PacedPlace(After(front), Emitted(front), p);
        } else {
          SeenAlready(After(front), p);
          assert Emitted(front) + [] == Emitted(front);
        }
      case Cancel(c) => PacedCancel(After(front), Emitted(front), c.orderId);
    }
  }

  lemma {:induction false} TradedMonotone(ev: seq<Event>, i: nat, j: nat, id: Id)
    requires i <= j <= |ev|
    ensures Traded(ev[..i], id) <= Traded(ev[..j], id)
  {
    if i < j {
      assert ev[..j][..j - 1] == ev[..j - 1];
      TradedMonotone(ev, i, j - 1, id);
    }
  }

  lemma {:induction false} PacedPrefix(ev: seq<Event>, k: nat)
    requires Paced(ev) && k < |ev|
    ensures PacedAt(ev[..k], ev[k])
  {
    if k < |ev| - 1 {
      PacedPrefix(ev[..|ev| - 1], k);
      assert ev[..|ev| - 1][..k] == ev[..k];
    }
  }

  /** Different updates of one order differ in status or filled quantity. */
  lemma RowsDiffer(orders: Orders, ev: seq<Event>, i: nat, j: nat, id: Id)
    requires LifeCycle(orders, ev) && Paced(ev) && i < j < |ev| && Updates(ev[i], id) && Updates(ev[j], id)
    ensures RowOf(ev[i]) != RowOf(ev[j])
  {
    LifeCycleAt(orders, ev, i);
    LifeCycleAt(orders, ev, j);
    PacedPrefix(ev, j);
    if EndsAt(ev[i], id) {
      EndedFrom(ev, id, i, j);
    }
    hide LifeCycle, Paced, Ended, Traded;
    if !Terminal(ev[j].kind.update.status) && !Terminal(ev[i].kind.update.status) {
      assert ev[..j][i] == ev[i];
      assert ev[..j][|ev[..j]| - 1] == ev[j - 1];
      TradeRaises(orders, ev, j, id);
      TradedMonotone(ev, i, j - 1, id);
    }
  }

  lemma TradeRaises(orders: Orders, ev: seq<Event>, j: nat, id: Id)
    requires LifeCycle(orders, ev) && 0 < j <= |ev| && ev[j - 1].kind.TradeMade? && Names(ev[j - 1], id)
    ensures Traded(ev[..j - 1], id) < Traded(ev[..j], id)
  {
    LifeCycleAt(orders, ev, j - 1);
    assert ev[..j][..j - 1] == ev[..j - 1];
  }

  // ---------- exactness for any delivery ----------

  /** The row of the last update in d. */
  function LastRow(rows: Rows, d: seq<Event>, id: Id): Row
    requires id in rows
  {
    var n := LastUpdate(d, id);
    if n == 0 then rows[id] else RowOf(d[n - 1])
  }

  /** Everything up to the highest number has been delivered at least once. */
  lemma {:induction false} AllDelivered(full: seq<Event>, d: seq<Event>, k: nat) returns (j: nat)
    requires Delivers(full, d) && k < High(d)
    ensures j < |d| && k < |full| && d[j] == full[k]
  {
    var front, e := d[..|d| - 1], d[|d| - 1];
    assert d == front + [e];
    DeliveredLast(full, front, e);
    if k < High(front) {
      j := AllDelivered(full, front, k);
    } else {
      j := |d| - 1;
    }
  }

  lemma {:induction false} EndedAt(ev: seq<Event>, id: Id)
    ensures Ended(ev, id) <==> exists k :: 0 <= k < |ev| && EndsAt(ev[k], id)
  {
    if ev != [] {
      var front := ev[..|ev| - 1];
      EndedAt(front, id);
      assert forall k :: 0 <= k < |ev| ==> ev[k] == if k < |front| then front[k] else ev[|front|];
      if Ended(front, id) {
        var k :| 0 <= k < |front| && EndsAt(front[k], id);
        assert EndsAt(ev[k], id);
      }
    }
  }

  /** Once every event has been read at least once, a row equals that of once-only delivery iff its order has ended
      or the last update read says what the last update of the history says. */
  lemma SyncIff(rows: Rows, full: seq<Event>, d: seq<Event>, id: Id)
    requires LifeCycled(full) && Delivers(full, d) && High(d) == |full| && id in rows && Active(rows[id])
    ensures id in Sync(rows, d) && id in Sync(rows, full)
    ensures Sync(rows, d)[id] == Sync(rows, full)[id]
            <==> Ended(full, id) || LastRow(rows, d, id) == LastRow(rows, full, id)
  {
    hide Sync, Delivers, High, Ended, Active;
    OneEndInHistory(full, id);
    OneEndDelivered(full, d, id);
    RowClosedForm(rows, full, id);
    RowClosedForm(rows, d, id);
    EndedAt(full, id);
    if Ended(full, id) {
      var k :| 0 <= k < |full| && EndsAt(full[k], id);
      var j := AllDelivered(full, d, k);
      assert EndsAt(d[j], id);
    } else {
      AllKnown(full, d);
    }
  }

  lemma OneEndDelivered(full: seq<Event>, d: seq<Event>, id: Id)
    requires OneEnd(full, id) && Delivers(full, d)
    ensures OneEnd(d, id)
  {
    AllKnown(full, d);
    forall i, j | 0 <= i < |d| && 0 <= j < |d| && EndsAt(d[i], id) && EndsAt(d[j], id)
      ensures RowOf(d[i]) == RowOf(d[j])
    {
      assert EndsAt(full[d[i].seqNo - 1], id) && EndsAt(full[d[j].seqNo - 1], id);
    }
  }

  /** The number of the last update read; 0 when there is none. */
  function LastNumber(d: seq<Event>, id: Id): nat {
    var n := LastUpdate(d, id);
    if n == 0 then 0 else d[n - 1].seqNo
  }

  /** For what the engine emits: iff the order has ended or its last update read is its highest-numbered one. */
  lemma StatusExact(rows: Rows, log: seq<Command>, d: seq<Event>, id: Id)
    requires Delivers(Emitted(log), d) && High(d) == |Emitted(log)| && id in rows && Active(rows[id])
    ensures id in Sync(rows, d) && id in Sync(rows, Emitted(log))
    ensures Sync(rows, d)[id] == Sync(rows, Emitted(log))[id]
            <==> Ended(Emitted(log), id) || LastNumber(d, id) == LastNumber(Emitted(log), id)
  {
    RunHist(log);
    RunPaced(log);
    assert LifeCycled(Emitted(log));
    hide After, Emitted, Known, Sync, Delivers, High, Paced, LifeCycled;
    SyncIff(rows, Emitted(log), d, id);
    SameRowSameNumber(rows, Known(log), Emitted(log), d, id);
  }

  lemma SameRowSameNumber(rows: Rows, orders: Orders, full: seq<Event>, d: seq<Event>, id: Id)
    requires LifeCycle(orders, full) && Paced(full) && Delivers(full, d) && High(d) == |full| && id in rows
    ensures LastRow(rows, d, id) == LastRow(rows, full, id) <==> LastNumber(d, id) == LastNumber(full, id)
  {
    hide LifeCycle, Paced, Delivers, High;
    AllKnown(full, d);
    LastUpdateIs(d, id);
    LastUpdateIs(full, id);
    var n, last := LastUpdate(d, id), LastUpdate(full, id);
    hide LastUpdate;
    if last > 0 {
      var j := AllDelivered(full, d, last - 1);
      assert Updates(d[j], id);
      var i := d[n - 1].seqNo - 1;
      assert d[n - 1] == full[i] && Updates(full[i], id);
      LifeCycleAt(orders, full, last - 1);
      if i < last - 1 {
        RowsDiffer(orders, full, i, last - 1, id);
      }
    }
  }

  // ---------- the whole pipeline ----------

  /** End to end, for any crashes, republishing and consumer restarts: once a consumer has read everything at least
      once, a row is that of one crash-free pass exactly when its order has ended or its last update read is the
      highest-numbered one.  If the committed position was readable at every start and the topic has been read to
      its end, that is every row. */
  lemma StatusesSurviveCrashes(acts: seq<Action>, c: seq<nat>, rows: Rows, id: Id)
    requires Reads(c, |Exec(acts).topic|) && id in rows && Active(rows[id])
    ensures InRange(c, |Exec(acts).topic|)
    ensures var full, d := AllEvents(Exec(acts).log), Pick(Exec(acts).topic, c);
            High(d) == |full| ==>
              id in Sync(rows, d) && id in Sync(rows, full)
              && (Sync(rows, d)[id] == Sync(rows, full)[id]
                  <==> Ended(full, id) || LastNumber(d, id) == LastNumber(full, id))
    ensures var full, topic := AllEvents(Exec(acts).log), Exec(acts).topic;
            ReadsCommitted(acts) && Walk(c, |topic|) && c != [] && c[|c| - 1] == |topic| - 1
            && LastSeq(topic) == |full| ==>
              id in Sync(rows, Pick(topic, c)) && id in Sync(rows, full)
              && Sync(rows, Pick(topic, c))[id] == Sync(rows, full)[id]
  {
    hide Exec, Emitted, Sync, Delivers, High, Walk, LastSeq;
    var sys := Exec(acts);
    var full, topic := AllEvents(sys.log), sys.topic;
    ExecInv(acts);
    assert Delivers(full, topic);
    ReadsDeliver(full, topic, c);
    if High(Pick(topic, c)) == |full| {
      StatusExact(rows, Commands(sys.log), Pick(topic, c), id);
    }
    if ReadsCommitted(acts) && Walk(c, |topic|) && c != [] && c[|c| - 1] == |topic| - 1 && LastSeq(topic) == |full| {
      ExecSteady(acts);
      assert NoJump(topic);
      HistoryLives(Commands(sys.log));
      LastIs(topic);
      StatusConverges(rows, full, topic, c, id);
    }
  }

  lemma HistoryLives(log: seq<Command>)
    ensures LifeCycled(Emitted(log))
  {
    RunHist(log);
  }

  lemma LastIs(d: seq<Event>)
    ensures d != [] ==> LastSeq(d) == d[|d| - 1].seqNo
  {
  }
}
