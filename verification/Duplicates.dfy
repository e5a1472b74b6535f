/**
 * Duplicated commands: when every cancel follows its order's place, commands that have already been
 * processed can be delivered again anywhere without any effect.
 */
module Duplicates {
  import opened Protocol
  import opened Book
  import opened Matching
  import opened EngineState
  import opened History

  ghost predicate Inert(s: State, cmd: Command)
    requires Good(s)
  {
    Step(s, cmd) == Outcome(s, [])
  }

  lemma CancelInertIff(s: State, c: CancelCommand)
    requires Good(s)
    ensures Inert(s, Cancel(c)) <==> !Resting(s, c.orderId)
  {
    FindOk(s.bids, c.orderId);
    FindOk(s.asks, c.orderId);
    if Resting(s, c.orderId) {
      var o :| o in s.bids + s.asks && o.id == c.orderId;
      assert |Step(s, Cancel(c)).events| == 1;
    }
  }

  lemma {:induction false} MatchIds(p: PlaceCommand, limit: Px, os: seq<Order>, left: Qty, x: Order)
    requires BookOk(os) && x in Match(p, limit, os, left).rest
    ensures exists y :: y in os && y.id == x.id
  {
    var k := MatchRest(p, limit, os, left);
    LeftoverIds(os, Match(p, limit, os, left).rest, k);
  }

  /** An accepted id that is not in the book never comes back. */
  lemma StaysAway(s: State, cmd: Command, id: Id)
    requires Good(s) && id in s.seen && !Resting(s, id)
    ensures id in Step(s, cmd).state.seen && !Resting(Step(s, cmd).state, id)
  {
    var s' := Step(s, cmd).state;
    if Resting(s', id) {
      var x :| x in s'.bids + s'.asks && x.id == id;
      match cmd
      case Place(p) => PlaceOrigin(s, p, x);
      case Cancel(c) => CancelOrigin(s, c.orderId, x);
    }
  }

  /** After a place, every resting order was there before or is the placed one. */
  lemma PlaceOrigin(s: State, p: PlaceCommand, x: Order)
    requires Good(s) && x in DoPlace(s, p).state.bids + DoPlace(s, p).state.asks
    ensures Resting(s, x.id) || (p.orderId == x.id && p.orderId !in s.seen)
  {
    var s1 := s.(seen := s.seen + {p.orderId});
    var opp := p.side.Opposite();
    var os := s1.On(opp);
    if p.orderId in s.seen || Admit(p, os).None? {
      assert x in s.bids + s.asks;
    } else {
      var sweep := Match(p, LimitOf(p), os, p.qty);
      var swept := AfterSweep(s1, p, sweep);
      if Rests(p, sweep) {
        InsertMembers(p.side, swept.On(p.side), TakerOrder(p, LimitOf(p), sweep.left));
      }
      if x.id != p.orderId {
        if x in sweep.rest {
          MatchIds(p, LimitOf(p), os, p.qty, x);
          var y :| y in os && y.id == x.id;
          assert y in s.bids + s.asks;
        } else {
          assert x in s.On(p.side);
          assert x in s.bids + s.asks;
        }
      }
    }
  }

  lemma CancelOrigin(s: State, id: Id, x: Order)
    requires Good(s) && x in DoCancel(s, id).state.bids + DoCancel(s, id).state.asks
    ensures Resting(s, x.id)
  {
    GoodDistinct(s, Bid);
    GoodDistinct(s, Ask);
    RemoveMembers(s.bids, id);
    RemoveMembers(s.asks, id);
    FindOk(s.bids, id);
    FindOk(s.asks, id);
    assert x in s.bids + s.asks;
  }

  /** Canceling removes the order for good. */
  lemma CancelRemoves(s: State, id: Id)
    requires Good(s)
    ensures !Resting(DoCancel(s, id).state, id)
  {
    GoodDistinct(s, Bid);
    GoodDistinct(s, Ask);
    DistinctConcat(s.bids, s.asks);
    RemoveMembers(s.bids, id);
    RemoveMembers(s.asks, id);
    FindOk(s.bids, id);
    FindOk(s.asks, id);
    hide Good, Remove;
    var s' := DoCancel(s, id).state;
    forall x | x in s'.bids + s'.asks
      ensures x.id != id
    {
      assert x in s.bids || x in s.asks;
    }
  }

  /** Every cancel comes after the place of its order. */
  predicate InOrder(log: seq<Command>) {
    log == [] ||
    (InOrder(log[..|log| - 1]) &&
     (log[|log| - 1].Cancel? ==> log[|log| - 1].cancel.orderId in Known(log[..|log| - 1])))
  }

  lemma {:induction false} SeenIsKnown(log: seq<Command>)
    ensures After(log).seen == Known(log).Keys
  {
    RunHist(log);
  }

  /** A processed command has nothing more to do. */
  lemma {:induction false} ProcessedIsInert(log: seq<Command>, cmd: Command)
    requires InOrder(log) && cmd in log
    ensures Inert(After(log), cmd)
    ensures cmd.Cancel? ==> cmd.cancel.orderId in After(log).seen
  {
    var front := log[..|log| - 1];
    var last := log[|log| - 1];
    assert log == front + [last];
    SeenIsKnown(front);
    SeenIsKnown(log);
    if cmd.Cancel? {
      var id := cmd.cancel.orderId;
      if cmd == last {
        CancelRemoves(After(front), id);
      } else {
        ProcessedIsInert(front, cmd);
        CancelInertIff(After(front), cmd.cancel);
        StaysAway(After(front), last, id);
      }
      CancelInertIff(After(log), cmd.cancel);
    } else {
      PlacedIsKnown(log, cmd.place);
    }
  }

  lemma {:induction false} PlacedIsKnown(log: seq<Command>, p: PlaceCommand)
    requires Place(p) in log
    ensures p.orderId in Known(log)
  {
    var front := log[..|log| - 1];
    assert log == front + [log[|log| - 1]];
    if log[|log| - 1] != Place(p) {
      PlacedIsKnown(front, p);
    }
  }

  lemma SeenAlready(s: State, p: PlaceCommand)
    requires Good(s) && p.orderId in s.seen
    ensures DoPlace(s, p) == Outcome(s, [])
  {
  }

  lemma AfterOne(log: seq<Command>, cmd: Command)
    ensures After(log + [cmd]) == Step(After(log), cmd).state
    ensures Emitted(log + [cmd]) == Emitted(log) + Step(After(log), cmd).events
    ensures Known(log + [cmd]) == Admitted(Known(log), cmd)
  {
  }

  lemma {:induction false} DuplicatesAbsorbed(log: seq<Command>, dup: seq<Command>)
    requires InOrder(log) && forall c | c in dup :: c in log
    ensures After(log + dup) == After(log) && Emitted(log + dup) == Emitted(log)
  {
    hide After, Emitted, Step, Good, InOrder;
    if dup == [] {
      assert log + dup == log;
    } else {
      var front := dup[..|dup| - 1];
      var last := dup[|dup| - 1];
      DuplicatesAbsorbed(log, front);
      ProcessedIsInert(log, last);
      assert log + dup == (log + front) + [last];
      AfterOne(log + front, last);
    }
  }

  lemma {:induction false} SameFuture(a: seq<Command>, b: seq<Command>, tail: seq<Command>)
    requires After(a) == After(b) && Emitted(a) == Emitted(b)
    ensures After(a + tail) == After(b + tail) && Emitted(a + tail) == Emitted(b + tail)
  {
    hide After, Emitted, Step, Good;
    if tail == [] {
      assert a + tail == a && b + tail == b;
    } else {
      var front := tail[..|tail| - 1];
      var last := tail[|tail| - 1];
      SameFuture(a, b, front);
      assert a + tail == (a + front) + [last] && b + tail == (b + front) + [last];
      AfterOne(a + front, last);
      AfterOne(b + front, last);
    }
  }

  /** Re-inserting processed commands anywhere changes neither the events nor any later state. */
  lemma RedeliveryIsInvisible(log: seq<Command>, dup: seq<Command>, tail: seq<Command>)
    requires InOrder(log) && forall c | c in dup :: c in log
    ensures After(log + dup + tail) == After(log + tail)
    ensures Emitted(log + dup + tail) == Emitted(log + tail)
  {
    DuplicatesAbsorbed(log, dup);
    SameFuture(log + dup, log, tail);
  }

  /** Without the ordering the claim fails exactly when a processed cancel names an order resting now. */
  lemma HarmlessIff(log: seq<Command>)
    ensures (forall c | c in log :: Inert(After(log), c))
       <==> (forall c | c in log :: c.Cancel? ==> !Resting(After(log), c.cancel.orderId))
  {
    SeenIsKnown(log);
    forall c | c in log
      ensures Inert(After(log), c) <==> (c.Cancel? ==> !Resting(After(log), c.cancel.orderId))
    {
      if c.Cancel? {
        CancelInertIff(After(log), c.cancel);
      } else {
        PlacedIsKnown(log, c.place);
      }
    }
  }

  /** A cancel that overtook its place: delivering it again cancels an order that used to rest. */
  lemma OvertakenCancelBites(p: PlaceCommand)
    requires p == PlaceCommand(1, 7, Bid, Limit, Gtc, NoStp, false, Some(100), 5)
    ensures var cancel := Cancel(CancelCommand(1, 7));
            var log := [cancel, Place(p)];
            !InOrder(log) && Resting(After(log), 1) && !Resting(After(log + [cancel]), 1)
  {
    var cancel := Cancel(CancelCommand(1, 7));
    var log := [cancel, Place(p)];
    assert log[..1] == [cancel] && [cancel][..0] == [];
    assert !InOrder(log);
    hide InOrder, Step, After;
    CancelTooEarly(cancel);
    assert log == [cancel] + [Place(p)];
    AfterOne([cancel], Place(p));
    FirstPlace(p);
    AfterOne(log, cancel);
    LateCancel(p, After(log));
  }

  lemma CancelTooEarly(cancel: Command)
    requires cancel.Cancel?
    ensures After([cancel]) == EMPTY
  {
  }

  lemma FirstPlace(p: PlaceCommand)
    requires p == PlaceCommand(1, 7, Bid, Limit, Gtc, NoStp, false, Some(100), 5)
    ensures Step(EMPTY, Place(p)).state == State([TakerOrder(p, 100, 5)], [], {1}, 0, 1)
  {
  }

  lemma LateCancel(p: PlaceCommand, s: State)
    requires p.orderId == 1 && s == State([TakerOrder(p, 100, 5)], [], {1}, 0, 1) && Good(s)
    ensures Resting(s, 1) && !Resting(Step(s, Cancel(CancelCommand(1, 7))).state, 1)
  {
  }
}
