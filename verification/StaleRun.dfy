/**
 * One failed read of the committed position is enough: a run of the engine's host after which an order's
 * status stays wrong although its consumer has read every event.
 */
module StaleRun {
  import opened Protocol
  import opened Book
  import opened History
  import opened Duplicates
  import opened Delivery
  import opened StatusSync
  import opened Scenario
  import opened Runner

  // ---------- a record handled without faults ----------

  function SendAll(n: nat): seq<Action> {
    if n == 0 then [] else [Send] + SendAll(n - 1)
  }

  lemma {:induction false} AllSent(sys: System, events: seq<Event>)
    requires EngineOk(sys) && sys.worker.Up? && sys.worker.pending == Some(events)
    ensures Perform(sys, SendAll(|events|))
         == sys.(topic := sys.topic + events, worker := sys.worker.(pending := Some([])))
    decreases |events|
  {
    if events == [] {
      assert sys.topic + [] == sys.topic;
    } else {
      var next := Act(sys, Send);
      assert SendAll(|events|)[1..] == SendAll(|events[1..]|);
      AllSent(next, events[1..]);
      assert sys.topic + [events[0]] + events[1..] == sys.topic + events;
    }
  }

  function HandleOne(n: nat): seq<Action> {
    [Poll] + SendAll(n) + [Commit(true)]
  }

  lemma RecordHandled(sys: System, r: Outcome)
    requires EngineOk(sys) && sys.worker.Up? && sys.worker.pending.None?
    requires sys.worker.base <= sys.worker.pos < |sys.log| && sys.log[sys.worker.pos].Decoded?
    requires Good(sys.worker.engine) && r == Step(sys.worker.engine, sys.log[sys.worker.pos].cmd)
    ensures var w := sys.worker;
            Perform(sys, HandleOne(|r.events|))
            == sys.(topic := sys.topic + r.events, committed := w.pos + 1,
                    worker := Up(r.state, w.base, w.pos + 1, None))
  {
    hide Step, Good;
    var n := |r.events|;
    var polled := Act(sys, Poll);
    assert polled == sys.(worker := sys.worker.(engine := r.state, pending := Some(r.events)));
    PerformOne(sys, Poll);
    AllSent(polled, r.events);
    hide Act, Perform, SendAll, EngineOk;
    PerformConcat(sys, [Poll], SendAll(n));
    var sent := Perform(polled, SendAll(n));
    PerformConcat(sys, [Poll] + SendAll(n), [Commit(true)]);
    PerformOne(sent, Commit(true));
    Committing(sent);
  }

  lemma Committing(sys: System)
    requires EngineOk(sys) && sys.worker.Up? && sys.worker.pending == Some([])
    ensures Act(sys, Commit(true))
         == sys.(committed := sys.worker.pos + 1, worker := sys.worker.(pos := sys.worker.pos + 1, pending := None))
  {
  }

  // ---------- the run ----------

  const BID := Plain(1, 7, Bid, 100, 5)
  const ASK := Plain(3, 8, Ask, 100, 2)
  const LATE := Plain(2, 9, Bid, 90, 5)

  const FIRST := OpeningEvents(BID)
  const THEN := FillingEvents(BID, ASK)
  const LAST := [Event(5, Update(LATE, OrderStatus.Open, 0))]

  const S1 := State(BidLeft(BID, 5), [], {1}, 0, 1)
  const S2 := State(BidLeft(BID, 3), [], {1, 3}, 1, 4)

  lemma LateRests()
    ensures Step(EMPTY, Place(BID)) == Outcome(S1, FIRST)
    ensures Good(S1) && Step(S1, Place(ASK)) == Outcome(S2, THEN)
    ensures Good(S2) && Step(S2, Place(LATE)).events == LAST
    ensures Emitted([Place(BID), Place(ASK), Place(LATE)]) == FIRST + THEN + LAST
  {
    hide Step, After, Good, Emitted, BidLeft, OpeningEvents, FillingEvents, BookOk;
    BidRests(BID);
    AskFills(BID, ASK);
    TwoOrders(BID, ASK);
    OneGood();
    LateStep();
    assert After([Place(BID), Place(ASK)]) == S2;
    AfterOne([Place(BID), Place(ASK)], Place(LATE));
    assert [Place(BID), Place(ASK)] + [Place(LATE)] == [Place(BID), Place(ASK), Place(LATE)];
  }

  lemma OneGood()
    ensures Good(S1) && Good(S2)
  {
  }

  lemma LateStep()
    ensures BookOk(S2.bids) && BookOk(S2.asks) && Step(S2, Place(LATE)).events == LAST
  {
    assert S2.bids[1..] == [];
  }

  /** The log is written and handled as far as the ask; a restart whose read of the committed position fails sends
      the first event once more and crashes; the next one goes on with the late order. */
  function StaleActions(): seq<Action> {
    [Produce(Decoded(Place(BID))), Produce(Decoded(Place(ASK))), Start(true)] + HandleOne(1) + HandleOne(3)
    + [Crash, Start(false), Poll, Send, Crash]
    + [Produce(Decoded(Place(LATE))), Start(true), Poll, Poll] + HandleOne(1)
  }

  function TwoRecords(): seq<Payload> {
    [Decoded(Place(BID)), Decoded(Place(ASK))]
  }

  lemma Part1()
    ensures Perform(BOOT, [Produce(Decoded(Place(BID))), Produce(Decoded(Place(ASK))), Start(true)])
         == System(TwoRecords(), 0, [], Up(EMPTY, 0, 0, None))
  {
    var a, b, c := Produce(Decoded(Place(BID))), Produce(Decoded(Place(ASK))), Start(true);
    assert [a, b, c][1..] == [b, c] && [b, c][1..] == [c];
    PerformOne(System(TwoRecords(), 0, [], Down), c);
    assert [] + [Decoded(Place(BID))] + [Decoded(Place(ASK))] == TwoRecords();
  }

  lemma Part2(topic: seq<Event>)
    ensures Perform(System(TwoRecords(), 2, topic, Up(S2, 0, 2, None)), [Crash, Start(false), Poll, Send, Crash])
         == System(TwoRecords(), 2, topic + FIRST, Down)
  {
    LateRests();
    hide Step, Good;
    var sys := System(TwoRecords(), 2, topic, Up(S2, 0, 2, None));
    var acts := [Crash, Start(false), Poll, Send, Crash];
    assert acts[1..] == [Start(false), Poll, Send, Crash] && acts[1..][1..] == [Poll, Send, Crash];
    assert acts[1..][1..][1..] == [Send, Crash] && acts[1..][1..][1..][1..] == [Crash];
    var s1 := Act(sys, Crash);
    var s2 := Act(s1, Start(false));
    var s3 := Act(s2, Poll);
    var s4 := Act(s3, Send);
    assert s3 == System(TwoRecords(), 2, topic, Up(S1, 0, 0, Some(FIRST)));
    assert FIRST[0] == Event(1, Update(BID, OrderStatus.Open, 0));
    assert s4.topic == topic + FIRST;
    PerformOne(s4, Crash);
  }

  lemma Part3(topic: seq<Event>)
    ensures Perform(System(TwoRecords(), 2, topic, Down), [Produce(Decoded(Place(LATE))), Start(true), Poll, Poll])
         == System(TwoRecords() + [Decoded(Place(LATE))], 2, topic, Up(S2, 2, 2, None))
  {
    LateRests();
    hide Step, Good;
    var sys := System(TwoRecords(), 2, topic, Down);
    var acts := [Produce(Decoded(Place(LATE))), Start(true), Poll, Poll];
    assert acts[1..] == [Start(true), Poll, Poll] && acts[1..][1..] == [Poll, Poll] && acts[1..][1..][1..] == [Poll];
    var s1 := Act(sys, acts[0]);
    var s2 := Act(s1, Start(true));
    var s3 := Act(s2, Poll);
    assert s3 == System(TwoRecords() + [Decoded(Place(LATE))], 2, topic, Up(S1, 2, 1, None));
    assert (TwoRecords() + [Decoded(Place(LATE))])[1] == Decoded(Place(ASK));
    assert Act(s3, Poll) == System(TwoRecords() + [Decoded(Place(LATE))], 2, topic, Up(S2, 2, 2, None));
    PerformOne(s3, Poll);
    hide Act;
    assert Perform(s2, [Poll, Poll]) == Perform(s3, [Poll]);
    assert Perform(s1, [Start(true), Poll, Poll]) == Perform(s2, [Poll, Poll]);
  }

  lemma StaleTopic()
    ensures Exec(StaleActions()).topic == FIRST + THEN + FIRST + LAST
    ensures Exec(StaleActions()).log == TwoRecords() + [Decoded(Place(LATE))]
  {
    LateRests();
    hide Step, Good;
    var a := [Produce(Decoded(Place(BID))), Produce(Decoded(Place(ASK))), Start(true)];
    var d := [Crash, Start(false), Poll, Send, Crash];
    var e := [Produce(Decoded(Place(LATE))), Start(true), Poll, Poll];
    var s0 := System(TwoRecords(), 0, [], Up(EMPTY, 0, 0, None));
    var s1 := System(TwoRecords(), 1, FIRST, Up(S1, 0, 1, None));
    var s2 := System(TwoRecords(), 2, FIRST + THEN, Up(S2, 0, 2, None));
    var s3 := System(TwoRecords(), 2, FIRST + THEN + FIRST, Down);
    var s4 := System(TwoRecords() + [Decoded(Place(LATE))], 2, FIRST + THEN + FIRST, Up(S2, 2, 2, None));
    Part1();
    assert [] + FIRST == FIRST;
    RecordHandled(s0, Outcome(S1, FIRST));
    RecordHandled(s1, Outcome(S2, THEN));
    Part2(FIRST + THEN);
    Part3(FIRST + THEN + FIRST);
    RecordHandled(s4, Step(S2, Place(LATE)));
    hide Act, Perform, HandleOne, Exec, EngineOk;
    ExecIsPerform(StaleActions());
    PerformConcat(BOOT, a, HandleOne(1));
    PerformConcat(BOOT, a + HandleOne(1), HandleOne(3));
    PerformConcat(BOOT, a + HandleOne(1) + HandleOne(3), d);
    PerformConcat(BOOT, a + HandleOne(1) + HandleOne(3) + d, e);
    PerformConcat(BOOT, a + HandleOne(1) + HandleOne(3) + d + e, HandleOne(1));
  }

  lemma StaleLog()
    ensures Commands(TwoRecords() + [Decoded(Place(LATE))]) == [Place(BID), Place(ASK), Place(LATE)]
  {
    var log := TwoRecords() + [Decoded(Place(LATE))];
    assert log[..2] == TwoRecords() && TwoRecords()[..1] == [Decoded(Place(BID))];
    assert [Decoded(Place(BID))][..0] == [];
    assert Commands([Decoded(Place(BID))]) == [Place(BID)];
    assert Commands(TwoRecords()) == [Place(BID), Place(ASK)];
  }

  lemma SyncLast(rows: Rows, d: seq<Event>, e: Event)
    ensures Sync(rows, d + [e]) == SyncOne(Sync(rows, d), e)
    ensures d == [] ==> Sync(rows, d) == rows
  {
    assert (d + [e])[..|d|] == d;
  }

  lemma StaleRows(rows: Rows)
    requires rows == map[1 := Row(None, 0)]
    ensures Sync(rows, FIRST + THEN + LAST) == map[1 := Row(Some(PartiallyFilled), 2)]
    ensures Sync(rows, FIRST + THEN + FIRST + LAST) == map[1 := Row(Some(OrderStatus.Open), 0)]
  {
    hide Sync;
    var d1 := FIRST;
    var d2 := d1 + [THEN[0]];
    var d3 := d2 + [THEN[1]];
    var d4 := d3 + [THEN[2]];
    SyncLast(rows, [], FIRST[0]);
    assert [] + [FIRST[0]] == d1;
    SyncLast(rows, d1, THEN[0]);
    SyncLast(rows, d2, THEN[1]);
    SyncLast(rows, d3, THEN[2]);
    assert d4 == FIRST + THEN;
    SyncLast(rows, d4, LAST[0]);
    SyncLast(rows, d4, FIRST[0]);
    SyncLast(rows, d4 + FIRST, LAST[0]);
    assert FIRST == [FIRST[0]] && LAST == [LAST[0]];
  }

  /** Every event has been published and read, in order and without a gap up to the highest, and still the row of
      order 1 says open with nothing filled, where once-only delivery says partially filled with 2. */
  lemma CrashLeavesStaleRow(rows: Rows)
    requires rows == map[1 := Row(None, 0)]
    ensures var sys := Exec(StaleActions());
            && Delivers(AllEvents(sys.log), sys.topic) && High(sys.topic) == |AllEvents(sys.log)|
            && Sync(rows, sys.topic) == map[1 := Row(Some(OrderStatus.Open), 0)]
            && Sync(rows, AllEvents(sys.log)) == map[1 := Row(Some(PartiallyFilled), 2)]
  {
    hide *;
    StaleTopic();
    StaleLog();
    LateRests();
    StaleRows(rows);
    Sizes();
    TopicDelivers(StaleActions());
  }

  lemma Sizes()
    ensures |FIRST + THEN + LAST| == 5
    ensures var d := FIRST + THEN + FIRST + LAST; d != [] && d[|d| - 1].seqNo == 5
    ensures forall log :: AllEvents(log) == Emitted(Commands(log))
  {
    hide Emitted, Commands;
  }

  lemma TopicDelivers(acts: seq<Action>)
    ensures var sys := Exec(acts);
            && Delivers(AllEvents(sys.log), sys.topic)
            && (sys.topic != [] ==> sys.topic[|sys.topic| - 1].seqNo <= High(sys.topic) <= |AllEvents(sys.log)|)
  {
    ExecInv(acts);
    hide Exec, AllEvents, High, Delivers;
    var sys := Exec(acts);
    DedupIsPrefix(AllEvents(sys.log), sys.topic);
    if sys.topic != [] {
      DeliveredAt(AllEvents(sys.log), sys.topic, |sys.topic| - 1);
    }
  }
}
