/**
 * The engine's host process as a crash-and-restart protocol: replay from the start of the command log,
 * publish from the committed position on, publish before committing.  Any step sequence is allowed.
 */
module Runner {
  import opened Protocol
  import opened Book
  import opened Matching
  import opened History
  import opened Duplicates
  import opened Delivery

  /** A log record: a command, or a payload that is empty or cannot be decoded. */
  datatype Payload = Decoded(cmd: Command) | Undecodable

  function Commands(log: seq<Payload>): seq<Command> {
    if log == [] then []
    else Commands(log[..|log| - 1]) + if log[|log| - 1].Decoded? then [log[|log| - 1].cmd] else []
  }

  /** `pending` holds the events of log[pos] still to be published; None while polling. */
  datatype Worker = Down | Up(engine: State, base: nat, pos: nat, pending: Option<seq<Event>>)

  datatype System = System(log: seq<Payload>, committed: nat, topic: seq<Event>, worker: Worker)

  const BOOT := System([], 0, [], Down)

  /** A send that reports an error may still have been delivered; a commit may fail silently;
      reading the committed position at start may fail and then counts as 0. */
  datatype Action =
    | Produce(payload: Payload)
    | Start(readOk: bool)
    | Poll
    | Send
    | SendError(delivered: bool)
    | Commit(ok: bool)
    | Crash

  predicate IsReplay(offset: nat, committedNext: nat) {
    offset < committedNext
  }

  function Publish(w: Worker): (w': Worker)
    requires w.Up? && w.pending.Some? && w.pending.value != []
  {
    w.(pending := Some(w.pending.value[1..]))
  }

  ghost predicate EngineOk(sys: System) {
    sys.worker.Up? ==> Good(sys.worker.engine)
  }

  ghost function PollOne(log: seq<Payload>, w: Worker): (w': Worker)
    requires w.Up? && w.pos < |log| && Good(w.engine)
    ensures w'.Up? && Good(w'.engine)
  {
    var replay := IsReplay(w.pos, w.base);
    match log[w.pos]
    case Undecodable => if replay then w.(pos := w.pos + 1) else w.(pending := Some([]))
    case Decoded(cmd) =>
      StepKeeps(w.engine, cmd);
      var r := Step(w.engine, cmd);
      if replay then w.(engine := r.state, pos := w.pos + 1)
      else w.(engine := r.state, pending := Some(r.events))
  }

  /** One action; an action that is not possible now changes nothing. */
  ghost function Act(sys: System, a: Action): (sys': System)
    requires EngineOk(sys)
    ensures EngineOk(sys')
  {
    var w := sys.worker;
    match a
    case Produce(payload) => sys.(log := sys.log + [payload])
    case Start(readOk) =>
      if w.Down? then sys.(worker := Up(EMPTY, if readOk then sys.committed else 0, 0, None)) else sys
    case Poll =>
      if w.Up? && w.pending.None? && w.pos < |sys.log| then sys.(worker := PollOne(sys.log, w)) else sys
    case Send =>
      if w.Up? && w.pending.Some? && w.pending.value != [] then
        sys.(topic := sys.topic + [w.pending.value[0]], worker := Publish(w))
      else sys
    case SendError(delivered) =>
      if w.Up? && w.pending.Some? && w.pending.value != [] && delivered then
        sys.(topic := sys.topic + [w.pending.value[0]])
      else sys
    case Commit(ok) =>
      if w.Up? && w.pending == Some([]) then
        sys.(committed := if ok then w.pos + 1 else sys.committed,
             worker := w.(pos := w.pos + 1, pending := None))
      else sys
    case Crash => sys.(worker := Down)
  }

  ghost function Exec(acts: seq<Action>): (sys: System)
    ensures EngineOk(sys)
  {
    if acts == [] then BOOT else Act(Exec(acts[..|acts| - 1]), acts[|acts| - 1])
  }

  /** Events of the first n log records in a crash-free run. */
  ghost function EventsUpTo(log: seq<Payload>, n: nat): seq<Event>
    requires n <= |log|
  {
    Emitted(Commands(log[..n]))
  }

  ghost function StateAt(log: seq<Payload>, n: nat): State
    requires n <= |log|
  {
    After(Commands(log[..n]))
  }

  ghost function AllEvents(log: seq<Payload>): seq<Event> {
    Emitted(Commands(log))
  }

  lemma NextRecord(log: seq<Payload>, n: nat)
    requires n < |log|
    ensures match log[n]
            case Undecodable => EventsUpTo(log, n + 1) == EventsUpTo(log, n) && StateAt(log, n + 1) == StateAt(log, n)
            case Decoded(cmd) =>
              var r := Step(StateAt(log, n), cmd);
              EventsUpTo(log, n + 1) == EventsUpTo(log, n) + r.events && StateAt(log, n + 1) == r.state
  {
    assert log[..n + 1][..n] == log[..n];
    if log[n].Decoded? {
      AfterOne(Commands(log[..n]), log[n].cmd);
    } else {
      assert Commands(log[..n + 1]) == Commands(log[..n]);
    }
  }

  lemma {:induction false} EventsMonotone(log: seq<Payload>, m: nat, n: nat)
    requires m <= n <= |log|
    ensures EventsUpTo(log, m) <= EventsUpTo(log, n)
  {
    hide EventsUpTo, StateAt, Step;
    if m < n {
      EventsMonotone(log, m, n - 1);
      NextRecord(log, n - 1);
    }
  }

  lemma AllIsUpToEnd(log: seq<Payload>)
    ensures EventsUpTo(log, |log|) == AllEvents(log)
  {
    assert log[..|log|] == log;
  }

  lemma AllNumbered(log: seq<Payload>)
    ensures Numbered(AllEvents(log))
  {
    forall k | 0 <= k < |AllEvents(log)| {
      NumberedWithoutGaps(Commands(log), k);
    }
  }

  lemma {:induction false} UpToStable(log: seq<Payload>, x: Payload, n: nat)
    requires n <= |log|
    ensures EventsUpTo(log + [x], n) == EventsUpTo(log, n) && StateAt(log + [x], n) == StateAt(log, n)
  {
    assert (log + [x])[..n] == log[..n];
  }

  // ---------- the invariant ----------

  /** A running worker has the crash-free state for its position, has published everything before it,
      and is about to publish what comes next. */
  ghost predicate WorkerOk(log: seq<Payload>, high: nat, w: Worker) {
    w.Up? ==>
      && w.pos <= |log| && w.base <= |log|
      && |EventsUpTo(log, w.base)| <= high && |EventsUpTo(log, w.pos)| <= high
      && match w.pending
         case None => w.engine == StateAt(log, w.pos)
         case Some(rest) => w.pos < |log| && w.base <= w.pos && Publishing(log, high, w.pos, w.engine, rest)
  }

  ghost predicate Publishing(log: seq<Payload>, high: nat, pos: nat, engine: State, rest: seq<Event>)
    requires pos < |log|
  {
    var upTo := EventsUpTo(log, pos + 1);
    && engine == StateAt(log, pos + 1)
    && |rest| <= |upTo| && rest == upTo[|upTo| - |rest|..]
    && |EventsUpTo(log, pos)| <= |upTo| - |rest| <= high
  }

  ghost predicate Inv(sys: System) {
    && sys.committed <= |sys.log|
    && Delivers(AllEvents(sys.log), sys.topic)
    && |EventsUpTo(sys.log, sys.committed)| <= High(sys.topic)
    && WorkerOk(sys.log, High(sys.topic), sys.worker)
  }

  lemma ProduceKeeps(sys: System, x: Payload)
    requires Inv(sys)
    ensures Inv(sys.(log := sys.log + [x]))
  {
    hide EventsUpTo, StateAt, AllEvents, Delivers, High;
    var log' := sys.log + [x];
    AllIsUpToEnd(sys.log);
    AllIsUpToEnd(log');
    EventsMonotone(log', |sys.log|, |log'|);
    UpToStable(sys.log, x, |sys.log|);
    DeliversGrows(AllEvents(sys.log), AllEvents(log'), sys.topic);
    UpToStable(sys.log, x, sys.committed);
    var w := sys.worker;
    if w.Up? {
      UpToStable(sys.log, x, w.base);
      UpToStable(sys.log, x, w.pos);
      if w.pending.Some? {
        UpToStable(sys.log, x, w.pos + 1);
      }
    }
  }

  lemma StartKeeps(sys: System, base: nat)
    requires Inv(sys) && (base == 0 || base == sys.committed)
    ensures Inv(sys.(worker := Up(EMPTY, base, 0, None)))
  {
    assert sys.log[..0] == [];
  }

  lemma PollKeeps(sys: System)
    requires Inv(sys) && EngineOk(sys)
    requires sys.worker.Up? && sys.worker.pending.None? && sys.worker.pos < |sys.log|
    ensures Inv(sys.(worker := PollOne(sys.log, sys.worker)))
  {
    hide EventsUpTo, StateAt, AllEvents, Delivers, High, Step, Good;
    var w := sys.worker;
    NextRecord(sys.log, w.pos);
    if IsReplay(w.pos, w.base) {
      EventsMonotone(sys.log, w.pos + 1, w.base);
    }
    var upTo := EventsUpTo(sys.log, w.pos + 1);
    var w' := PollOne(sys.log, w);
    if w'.pending.Some? {
      assert w'.pending.value == upTo[|upTo| - |w'.pending.value|..];
    }
  }

  /** Whatever is sent next is the history's next event or one that has been out before. */
  lemma SentIsNext(sys: System)
    requires Inv(sys) && sys.worker.Up? && sys.worker.pending.Some? && sys.worker.pending.value != []
    ensures var e := sys.worker.pending.value[0];
            var upTo := EventsUpTo(sys.log, sys.worker.pos + 1);
            && Delivers(AllEvents(sys.log), sys.topic + [e])
            && High(sys.topic + [e]) == (if e.seqNo > High(sys.topic) then e.seqNo else High(sys.topic))
            && e.seqNo == |upTo| - |sys.worker.pending.value| + 1
  {
    hide EventsUpTo, StateAt, AllEvents, Delivers, High;
    var w := sys.worker;
    var full := AllEvents(sys.log);
    var upTo := EventsUpTo(sys.log, w.pos + 1);
    AllIsUpToEnd(sys.log);
    EventsMonotone(sys.log, w.pos + 1, |sys.log|);
    AllNumbered(sys.log);
    var k := |upTo| - |w.pending.value|;
    assert w.pending.value[0] == upTo[k] == full[k];
    DeliverOne(full, sys.topic, full[k]);
  }

  lemma SendKeeps(sys: System)
    requires Inv(sys) && sys.worker.Up? && sys.worker.pending.Some? && sys.worker.pending.value != []
    ensures Inv(sys.(topic := sys.topic + [sys.worker.pending.value[0]]))
    ensures Inv(sys.(topic := sys.topic + [sys.worker.pending.value[0]], worker := Publish(sys.worker)))
  {
    hide EventsUpTo, StateAt, AllEvents, Delivers, High;
    SentIsNext(sys);
    DropFront(EventsUpTo(sys.log, sys.worker.pos + 1), sys.worker.pending.value);
  }

  lemma DropFront(all: seq<Event>, rest: seq<Event>)
    requires 0 < |rest| <= |all| && rest == all[|all| - |rest|..]
    ensures rest[1..] == all[|all| - |rest[1..]|..]
  {
  }

  lemma CommitKeeps(sys: System, ok: bool)
    requires Inv(sys) && sys.worker.Up? && sys.worker.pending == Some([])
    ensures var w := sys.worker;
            Inv(sys.(committed := if ok then w.pos + 1 else sys.committed,
                     worker := w.(pos := w.pos + 1, pending := None)))
  {
  }

  lemma ActKeeps(sys: System, a: Action)
    requires EngineOk(sys) && Inv(sys)
    ensures Inv(Act(sys, a))
  {
    hide Inv, PollOne, Publish, Good;
    var w := sys.worker;
    match a
    case Produce(x) => ProduceKeeps(sys, x);
    case Start(readOk) =>
      if w.Down? {
        StartKeeps(sys, if readOk then sys.committed else 0);
      }
    case Poll =>
      if w.Up? && w.pending.None? && w.pos < |sys.log| {
        PollKeeps(sys);
      }
    case Send =>
      if w.Up? && w.pending.Some? && w.pending.value != [] {
        SendKeeps(sys);
      }
    case SendError(_) =>
      if w.Up? && w.pending.Some? && w.pending.value != [] {
        SendKeeps(sys);
      }
    case Commit(ok) =>
      if w.Up? && w.pending == Some([]) {
        CommitKeeps(sys, ok);
      }
    case Crash => CrashKeeps(sys);
  }

  lemma CrashKeeps(sys: System)
    requires Inv(sys)
    ensures Inv(sys.(worker := Down))
  {
    hide EventsUpTo, AllEvents, Delivers, High;
  }

  lemma {:induction false} ExecInv(acts: seq<Action>)
    ensures Inv(Exec(acts))
  {
    if acts == [] {
      assert BOOT.log[..0] == [];
    } else {
      ExecInv(acts[..|acts| - 1]);
      ActKeeps(Exec(acts[..|acts| - 1]), acts[|acts| - 1]);
    }
  }

  /** Performing further actions from a given state. */
  ghost function Perform(sys: System, acts: seq<Action>): (sys': System)
    requires EngineOk(sys)
    ensures EngineOk(sys')
    decreases |acts|
  {
    if acts == [] then sys else Perform(Act(sys, acts[0]), acts[1..])
  }

  lemma {:induction false} PerformConcat(sys: System, a: seq<Action>, b: seq<Action>)
    requires EngineOk(sys)
    ensures Perform(sys, a + b) == Perform(Perform(sys, a), b)
    decreases |a|
  {
    hide Act;
    if a == [] {
      assert a + b == b;
    } else {
      assert (a + b)[1..] == a[1..] + b;
      PerformConcat(Act(sys, a[0]), a[1..], b);
    }
  }

  lemma {:induction false} PerformInv(sys: System, acts: seq<Action>)
    requires EngineOk(sys) && Inv(sys)
    ensures Inv(Perform(sys, acts))
    decreases |acts|
  {
    hide Act, Inv;
    if acts != [] {
      ActKeeps(sys, acts[0]);
      PerformInv(Act(sys, acts[0]), acts[1..]);
    }
  }

  lemma {:induction false} ExecIsPerform(acts: seq<Action>)
    ensures Exec(acts) == Perform(BOOT, acts)
  {
    hide Act;
    if acts != [] {
      var front, last := acts[..|acts| - 1], acts[|acts| - 1];
      ExecIsPerform(front);
      assert acts == front + [last];
      PerformConcat(BOOT, front, [last]);
      PerformOne(Perform(BOOT, front), last);
    }
  }

  lemma PerformOne(sys: System, a: Action)
    requires EngineOk(sys)
    ensures Perform(sys, [a]) == Act(sys, a)
  {
    hide Act;
    assert [a][1..] == [];
  }

  /** Exactly once: dropping known numbers from the topic leaves a gap-free prefix of the crash-free run,
      and every command below the committed position has all its events in it. */
  lemma ExactlyOnce(acts: seq<Action>)
    ensures var sys := Exec(acts);
            && High(sys.topic) <= |AllEvents(sys.log)|
            && Dedup(sys.topic) == AllEvents(sys.log)[..High(sys.topic)]
            && sys.committed <= |sys.log|
            && EventsUpTo(sys.log, sys.committed) <= Dedup(sys.topic)
  {
    var sys := Exec(acts);
    ExecInv(acts);
    DedupIsPrefix(AllEvents(sys.log), sys.topic);
    AllIsUpToEnd(sys.log);
    EventsMonotone(sys.log, sys.committed, |sys.log|);
  }

  /** Republished events are the same events. */
  lemma RepublishedUnchanged(acts: seq<Action>, i: nat, j: nat)
    requires i < |Exec(acts).topic| && j < |Exec(acts).topic|
    requires Exec(acts).topic[i].seqNo == Exec(acts).topic[j].seqNo
    ensures Exec(acts).topic[i] == Exec(acts).topic[j]
  {
    ExecInv(acts);
    SameNumberSameEvent(AllEvents(Exec(acts).log), Exec(acts).topic, i, j);
  }

  /** Nothing is stuck: a worker that has published and handled the whole log has delivered every event. */
  lemma CaughtUp(acts: seq<Action>)
    requires var sys := Exec(acts);
             sys.worker.Up? && sys.worker.pending.None? && sys.worker.pos == |sys.log|
    ensures Dedup(Exec(acts).topic) == AllEvents(Exec(acts).log)
  {
    hide Exec, EventsUpTo, StateAt, AllEvents, Delivers, High, Dedup;
    ExecInv(acts);
    AllIsUpToEnd(Exec(acts).log);
    DedupIsPrefix(AllEvents(Exec(acts).log), Exec(acts).topic);
  }

  // ---------- restarts ----------

  function Polls(n: nat): seq<Action> {
    if n == 0 then [] else Polls(n - 1) + [Poll]
  }

  /** A restart that can read the committed position replays everything below it without sending anything. */
  lemma {:induction false} RestartIsSilent(sys: System, n: nat)
    requires EngineOk(sys) && sys.worker == Down && n <= sys.committed <= |sys.log|
    ensures Perform(sys, [Start(true)] + Polls(n))
         == sys.(worker := Up(StateAt(sys.log, n), sys.committed, n, None))
  {
    hide Act, EngineOk, Perform, StateAt;
    if n == 0 {
      Started(sys);
      PerformOne(sys, Start(true));
      assert [Start(true)] + Polls(0) == [Start(true)];
    } else {
      RestartIsSilent(sys, n - 1);
      assert [Start(true)] + Polls(n) == ([Start(true)] + Polls(n - 1)) + [Poll];
      PerformConcat(sys, [Start(true)] + Polls(n - 1), [Poll]);
      var mid := Perform(sys, [Start(true)] + Polls(n - 1));
      PerformOne(mid, Poll);
      ReplayOne(mid, n - 1);
    }
  }

  lemma Started(sys: System)
    requires EngineOk(sys) && sys.worker == Down
    ensures Act(sys, Start(true)) == sys.(worker := Up(StateAt(sys.log, 0), sys.committed, 0, None))
  {
    assert sys.log[..0] == [];
  }

  lemma ReplayOne(sys: System, n: nat)
    requires EngineOk(sys) && n < sys.committed <= |sys.log|
    requires sys.worker == Up(StateAt(sys.log, n), sys.committed, n, None)
    ensures Act(sys, Poll) == sys.(worker := Up(StateAt(sys.log, n + 1), sys.committed, n + 1, None))
  {
    hide EventsUpTo, StateAt, Step, Good;
    NextRecord(sys.log, n);
  }

  /** The record at the committed position is the first to be published, all its events and nothing else; once that
      is committed, the record lies below the position. */
  lemma FirstPublished(sys: System)
    requires EngineOk(sys) && sys.committed < |sys.log|
    requires sys.worker == Up(StateAt(sys.log, sys.committed), sys.committed, sys.committed, None)
    ensures var polled := Act(sys, Poll);
            && polled.worker.Up? && polled.worker.pending.Some?
            && EventsUpTo(sys.log, sys.committed + 1)
               == EventsUpTo(sys.log, sys.committed) + polled.worker.pending.value
            && polled == sys.(worker := polled.worker) && polled.worker.pos == sys.committed
  {
    hide EventsUpTo, StateAt, Step, Good;
    NextRecord(sys.log, sys.committed);
    assert EventsUpTo(sys.log, sys.committed) + [] == EventsUpTo(sys.log, sys.committed);
  }

  /** A confirmed send is on the topic and no longer pending; a failed one stays pending and is on the topic iff it got
      there all the same. */
  lemma SendsAre(sys: System, delivered: bool)
    requires EngineOk(sys) && sys.worker.Up? && sys.worker.pending.Some? && sys.worker.pending.value != []
    ensures var e := sys.worker.pending.value[0];
            && Act(sys, Send).topic == sys.topic + [e]
            && Act(sys, Send).worker == sys.worker.(pending := Some(sys.worker.pending.value[1..]))
            && Act(sys, SendError(delivered)) == sys.(topic := sys.topic + if delivered then [e] else [])
  {
    hide Good;
    assert sys.topic + [] == sys.topic;
  }

  /** A commit that arrives puts the record it is for below the committed position. */
  lemma CommittedIsDone(sys: System)
    requires EngineOk(sys) && sys.worker.Up? && sys.worker.pending == Some([])
    ensures var sys' := Act(sys, Commit(true));
            sys'.committed == sys.worker.pos + 1 && sys'.worker.Up? && sys'.worker.pos == sys'.committed
  {
  }
}
