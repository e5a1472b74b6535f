/**
 * The engine's host process in its imperative form: replay, publish with retries, commit.  Handling a record
 * performs exactly the corresponding actions of the recovery protocol, whatever sends and commits fail.
 */
module MatchingWorker {
  import opened Protocol
  import opened Book
  import opened Delivery
  import opened Runner
  import Engine

  class Broker {
    var log: seq<Payload>
    var committed: nat
    var topic: seq<Event>

    constructor ()
      ensures log == [] && committed == 0 && topic == []
    {
      log, committed, topic := [], 0, [];
    }
  }

  /** For each failed attempt, whether the broker took the message all the same. */
  type Faults = seq<bool>

  function Attempts(faults: Faults): seq<Action> {
    seq(|faults|, i requires 0 <= i < |faults| => SendError(faults[i])) + [Send]
  }

  function Sends(n: nat, faults: seq<Faults>): seq<Action> {
    if n == 0 then []
    else Attempts(if faults == [] then [] else faults[0]) + Sends(n - 1, if faults == [] then [] else faults[1..])
  }

  /** The protocol actions for one record that takes n events. */
  function Script(replayed: bool, n: nat, faults: seq<Faults>, commitOk: bool): seq<Action> {
    if replayed then [Poll] else [Poll] + Sends(n, faults) + [Commit(commitOk)]
  }

  /** How many events the record at the worker's position gives rise to. */
  ghost function EventCount(sys: System): nat
    requires EngineOk(sys) && sys.worker.Up? && sys.worker.pos < |sys.log|
  {
    match sys.log[sys.worker.pos]
    case Undecodable => 0
    case Decoded(cmd) => |Step(sys.worker.engine, cmd).events|
  }

  class SymbolWorker {
    const broker: Broker
    const engine: Engine.Engine
    const base: nat
    var pos: nat

    ghost predicate Valid()
      reads this, engine
    {
      engine.Valid()
    }

    /** The system between two records. */
    ghost function View(): (sys: System)
      requires Valid()
      reads this, broker, engine
      ensures EngineOk(sys)
    {
      System(broker.log, broker.committed, broker.topic, Up(engine.Abs(), base, pos, None))
    }

    /** The system while the events `pending` of the current record are being published. */
    ghost function Busy(pending: seq<Event>): (sys: System)
      requires Valid()
      reads this, broker, engine
      ensures EngineOk(sys)
    {
      System(broker.log, broker.committed, broker.topic, Up(engine.Abs(), base, pos, Some(pending)))
    }

    constructor (broker: Broker, readOk: bool)
      ensures Valid() && fresh(engine) && this.broker == broker
      ensures View() == Act(System(broker.log, broker.committed, broker.topic, Down), Start(readOk)) && pos == 0
      ensures base == if readOk then broker.committed else 0
    {
      this.broker := broker;
      engine := new Engine.Engine();
      base := if readOk then broker.committed else 0;
      pos := 0;
    }

    /** Sends one event until the broker confirms it. */
    method SendOne(e: Event, ghost rest: seq<Event>, faults: Faults)
      requires Valid()
      modifies broker`topic
      ensures Valid() && Busy(rest) == Perform(old(Busy([e] + rest)), Attempts(faults))
    {
      hide Act, EngineOk;
      var i := 0;
      ghost var start := Busy([e] + rest);
      while i < |faults|
        invariant i <= |faults|
        invariant Valid() && Perform(start, Attempts(faults)) == Perform(Busy([e] + rest), Attempts(faults[i..]))
      {
        ghost var before := Busy([e] + rest);
        if faults[i] {
          broker.topic := broker.topic + [e];
        }
        AttemptFails(before, e, rest, faults[i..]);
        assert faults[i..][1..] == faults[i + 1..];
        i := i + 1;
      }
      LastAttempt(Busy([e] + rest), e, rest);
      assert faults[i..] == [];
      broker.topic := broker.topic + [e];
    }

    method PublishAll(events: seq<Event>, faults: seq<Faults>)
      requires Valid()
      modifies broker`topic
      ensures Valid() && Busy([]) == Perform(old(Busy(events)), Sends(|events|, faults))
    {
      hide Act, EngineOk, Attempts, Perform, Sends, Engine.Engine.Valid, Engine.Engine.Abs;
      ghost var start := Busy(events);
      var i := 0;
      var left := faults;
      assert events[0..] == events;
      while i < |events|
        invariant i <= |events| && Valid()
        invariant Perform(start, Sends(|events|, faults)) == Perform(Busy(events[i..]), Sends(|events| - i, left))
      {
        var now := if left == [] then [] else left[0];
        var later := if left == [] then [] else left[1..];
        ghost var before := Busy(events[i..]);
        SendsStep(|events| - i, left);
        PerformConcat(before, Attempts(now), Sends(|events| - i - 1, later));
        assert [events[i]] + events[i + 1..] == events[i..];
        SendOne(events[i], events[i + 1..], now);
        left := later;
        i := i + 1;
      }
      assert events[i..] == [];
      SendsNone(Busy([]), left);
    }

    /** One record of the log: what it does is a run of the protocol. */
    method HandleRecord(faults: seq<Faults>, commitOk: bool)
      requires Valid() && pos < |broker.log|
      modifies this`pos, broker`topic, broker`committed, engine
      ensures Valid() && pos == old(pos) + 1 && broker.log == old(broker.log)
      ensures broker.committed == if base <= old(pos) && commitOk then old(pos) + 1 else old(broker.committed)
      ensures View()
           == Perform(old(View()), Script(IsReplay(old(pos), base), EventCount(old(View())), faults, commitOk))
    {
      hide Sends, EngineOk, Act, Perform, Script, Step, Engine.Engine.Valid, Engine.Engine.Abs;
      var replay := IsReplay(pos, base);
      ghost var start := View();
      PollIs(start);
      ghost var polled := Act(start, Poll);
      ghost var n := EventCount(start);
      match broker.log[pos] {
        case Undecodable =>
          SendsNone(polled, faults);
        case Decoded(cmd) =>
          var events := engine.Process(cmd);
          if !replay {
            PublishAll(events, faults);
          }
      }
      ScriptIs(start, polled, n, replay, faults, commitOk);
      if !replay {
        CommitIs(Busy([]), commitOk);
        CommitOffset(commitOk);
      }
      pos := pos + 1;
      assert View() == Perform(start, Script(replay, n, faults, commitOk));
    }

    method CommitOffset(ok: bool)
      modifies broker`committed
      ensures broker.committed == if ok then pos + 1 else old(broker.committed)
    {
      if ok {
        broker.committed := pos + 1;
      }
    }
  }

  lemma AttemptFails(sys: System, e: Event, rest: seq<Event>, faults: Faults)
    requires EngineOk(sys) && sys.worker.Up? && sys.worker.pending == Some([e] + rest) && faults != []
    ensures Perform(sys, Attempts(faults))
         == Perform(if faults[0] then sys.(topic := sys.topic + [e]) else sys, Attempts(faults[1..]))
  {
    hide EngineOk;
    assert Attempts(faults)[0] == SendError(faults[0]);
    assert Attempts(faults)[1..] == Attempts(faults[1..]);
  }

  lemma LastAttempt(sys: System, e: Event, rest: seq<Event>)
    requires EngineOk(sys) && sys.worker.Up? && sys.worker.pending == Some([e] + rest)
    ensures Perform(sys, Attempts([]))
         == sys.(topic := sys.topic + [e], worker := sys.worker.(pending := Some(rest)))
  {
  }

  lemma SendsStep(n: nat, faults: seq<Faults>)
    requires n > 0
    ensures Sends(n, faults)
         == Attempts(if faults == [] then [] else faults[0]) + Sends(n - 1, if faults == [] then [] else faults[1..])
  {
    hide Attempts;
  }

  lemma SendsNone(sys: System, faults: seq<Faults>)
    requires EngineOk(sys)
    ensures Perform(sys, Sends(0, faults)) == sys
  {
  }

  lemma PollIs(sys: System)
    requires EngineOk(sys) && sys.worker.Up? && sys.worker.pending.None? && sys.worker.pos < |sys.log|
    ensures Good(sys.worker.engine)
    ensures var w := sys.worker;
            var replay := IsReplay(w.pos, w.base);
            Act(sys, Poll)
            == match sys.log[w.pos]
               case Undecodable => sys.(worker := if replay then w.(pos := w.pos + 1) else w.(pending := Some([])))
               case Decoded(cmd) =>
                 var r := Step(w.engine, cmd);
                 sys.(worker := if replay then w.(engine := r.state, pos := w.pos + 1)
                                else w.(engine := r.state, pending := Some(r.events)))
  {
  }

  lemma CommitIs(sys: System, ok: bool)
    requires EngineOk(sys) && sys.worker.Up? && sys.worker.pending == Some([])
    ensures var w := sys.worker;
            Act(sys, Commit(ok))
            == sys.(committed := if ok then w.pos + 1 else sys.committed,
                    worker := w.(pos := w.pos + 1, pending := None))
  {
  }

  lemma ScriptIs(start: System, polled: System, n: nat, replayed: bool, faults: seq<Faults>, commitOk: bool)
    requires EngineOk(start) && polled == Act(start, Poll)
    ensures Perform(start, Script(replayed, n, faults, commitOk))
         == if replayed then polled else Act(Perform(polled, Sends(n, faults)), Commit(commitOk))
  {
    hide Act, Sends, EngineOk;
    if replayed {
      assert [Poll][1..] == [] && Perform(polled, []) == polled;
    } else {
      var acts := [Poll] + Sends(n, faults);
      var sent := Perform(polled, Sends(n, faults));
      assert acts[1..] == Sends(n, faults);
      PerformConcat(start, acts, [Commit(commitOk)]);
      assert [Commit(commitOk)][1..] == [] && Perform(Act(sent, Commit(commitOk)), []) == Act(sent, Commit(commitOk));
    }
  }

  /** From any state crashes can leave behind: starting a worker and letting it reach the end of the log makes
      the topic, once known numbers are dropped, the complete crash-free history. */
  method RunSymbol(broker: Broker, readOk: bool, faults: seq<seq<Faults>>, commits: seq<bool>)
    requires Inv(System(broker.log, broker.committed, broker.topic, Down))
    modifies broker`topic, broker`committed
    ensures broker.log == old(broker.log) && Dedup(broker.topic) == AllEvents(broker.log)
    ensures Inv(System(broker.log, broker.committed, broker.topic, Down))
    ensures (forall k :: 0 <= k < |commits| ==> commits[k]) ==> broker.committed == |broker.log|
  {
    hide Act, Perform, Script, Inv, AllEvents, Dedup, Engine.Engine.Valid, Engine.Engine.Abs;
    CommittedInLog(System(broker.log, broker.committed, broker.topic, Down));
    var worker := new SymbolWorker(broker, readOk);
    ActKeeps(System(broker.log, broker.committed, broker.topic, Down), Start(readOk));
    while worker.pos < |broker.log|
      invariant worker.Valid() && worker.broker == broker && fresh(worker) && fresh(worker.engine)
      invariant broker.log == old(broker.log) && worker.pos <= |broker.log| && Inv(worker.View())
      invariant worker.base == if readOk then old(broker.committed) else 0
      invariant (forall k :: 0 <= k < |commits| ==> commits[k]) ==>
                  broker.committed == if worker.pos <= worker.base then old(broker.committed) else worker.pos
    {
      var k := worker.pos;
      ghost var before := worker.View();
      worker.HandleRecord(if k < |faults| then faults[k] else [], if k < |commits| then commits[k] else true);
      PerformInv(before, Script(IsReplay(k, worker.base), EventCount(before), if k < |faults| then faults[k] else [],
                                if k < |commits| then commits[k] else true));
    }
    DoneIsComplete(worker.View());
    CrashKeeps(worker.View());
  }

  lemma CommittedInLog(sys: System)
    requires Inv(sys)
    ensures sys.committed <= |sys.log|
  {
  }

  lemma DoneIsComplete(sys: System)
    requires EngineOk(sys) && Inv(sys) && sys.worker.Up? && sys.worker.pending.None? && sys.worker.pos == |sys.log|
    ensures Dedup(sys.topic) == AllEvents(sys.log)
  {
    AllIsUpToEnd(sys.log);
    DedupIsPrefix(AllEvents(sys.log), sys.topic);
  }
}
