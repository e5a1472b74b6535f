/**
 * What the recovery protocol gives its consumers: as long as the committed position can be read at every
 * start, published numbers never jump forward, so statuses converge; one failed read breaks that.
 */
module Recovery {
  import opened Protocol
  import opened Book
  import opened Delivery
  import opened Runner
  import opened StatusSync

  predicate ReadsCommitted(acts: seq<Action>) {
    forall k :: 0 <= k < |acts| ==> acts[k] != Start(false)
  }

  /** The last published number is never below what is committed or already handled. */
  ghost predicate Steady(sys: System) {
    && NoJump(sys.topic)
    && sys.committed <= |sys.log|
    && |EventsUpTo(sys.log, sys.committed)| <= LastSeq(sys.topic)
    && (sys.worker.Up? ==>
          var w := sys.worker;
          && w.base <= |sys.log| && w.pos <= |sys.log|
          && |EventsUpTo(sys.log, w.base)| <= LastSeq(sys.topic)
          && (w.base <= w.pos ==> |EventsUpTo(sys.log, w.pos)| <= LastSeq(sys.topic))
          && (w.pending.Some? ==>
                w.pos < |sys.log| && w.base <= w.pos
                && |EventsUpTo(sys.log, w.pos + 1)| - |w.pending.value| <= LastSeq(sys.topic)
                && sys.committed <= w.pos)
          && (sys.committed <= w.base || sys.committed <= w.pos))
  }

  lemma SteadyProduce(sys: System, x: Payload)
    requires Steady(sys)
    ensures Steady(sys.(log := sys.log + [x]))
  {
    hide EventsUpTo, StateAt, NoJump, LastSeq;
    UpToStable(sys.log, x, sys.committed);
    var w := sys.worker;
    if w.Up? {
      UpToStable(sys.log, x, w.base);
      UpToStable(sys.log, x, w.pos);
      if w.pending.Some? {
        UpToStable(sys.log, x, w.pos + 1);
      }
    }
  }

  lemma SteadyPoll(sys: System)
    requires Steady(sys) && Inv(sys) && EngineOk(sys)
    requires sys.worker.Up? && sys.worker.pending.None? && sys.worker.pos < |sys.log|
    ensures Steady(sys.(worker := PollOne(sys.log, sys.worker)))
  {
    hide EventsUpTo, StateAt, AllEvents, NoJump, LastSeq, Step, Good, Delivers, High;
    var w := sys.worker;
    NextRecord(sys.log, w.pos);
    if IsReplay(w.pos, w.base) && w.base <= w.pos + 1 {
      assert w.pos + 1 == w.base;
    }
  }

  lemma SteadySend(sys: System)
    requires Steady(sys) && Inv(sys) && sys.worker.Up? && sys.worker.pending.Some? && sys.worker.pending.value != []
    ensures Steady(sys.(topic := sys.topic + [sys.worker.pending.value[0]]))
    ensures Steady(sys.(topic := sys.topic + [sys.worker.pending.value[0]], worker := Publish(sys.worker)))
  {
    hide EventsUpTo, AllEvents, StateAt, Delivers, High;
    SentIsNext(sys);
    var w := sys.worker;
    var e := w.pending.value[0];
    EventsMonotone(sys.log, w.base, w.pos);
    EventsMonotone(sys.log, sys.committed, w.pos);
    SendNumber(sys);
    NoJumpAppend(sys.topic, e);
    hide NoJump, LastSeq, Inv;
  }

  lemma NoJumpAppend(d: seq<Event>, e: Event)
    ensures NoJump(d + [e]) <==> NoJump(d) && e.seqNo <= LastSeq(d) + 1
    ensures LastSeq(d + [e]) == e.seqNo
  {
  }

  /** Events of the record being published come after those of all earlier records. */
  lemma SendNumber(sys: System)
    requires Inv(sys) && sys.worker.Up? && sys.worker.pending.Some?
    ensures |EventsUpTo(sys.log, sys.worker.pos)|
         <= |EventsUpTo(sys.log, sys.worker.pos + 1)| - |sys.worker.pending.value|
  {
    hide EventsUpTo, AllEvents, StateAt, Delivers, High;
  }

  lemma SteadyAct(sys: System, a: Action)
    requires EngineOk(sys) && Inv(sys) && Steady(sys) && a != Start(false)
    ensures Steady(Act(sys, a))
  {
    hide EventsUpTo, AllEvents, StateAt, Delivers, High, NoJump, LastSeq, PollOne, Good;
    var w := sys.worker;
    match a
    case Produce(x) => SteadyProduce(sys, x);
    case Start(_) => SteadyStart(sys);
    case Poll =>
      if w.Up? && w.pending.None? && w.pos < |sys.log| {
        SteadyPoll(sys);
      }
    case Send =>
      if w.Up? && w.pending.Some? && w.pending.value != [] {
        SteadySend(sys);
      }
    case SendError(_) =>
      if w.Up? && w.pending.Some? && w.pending.value != [] {
        SteadySend(sys);
      }
    case Commit(_) =>
    case Crash =>
  }

  lemma SteadyStart(sys: System)
    requires Steady(sys)
    ensures Steady(sys.(worker := Up(EMPTY, sys.committed, 0, None)))
  {
  }

  lemma {:induction false} ExecSteady(acts: seq<Action>)
    requires ReadsCommitted(acts)
    ensures Steady(Exec(acts))
  {
    if acts == [] {
      assert BOOT.log[..0] == [];
    } else {
      ExecSteady(acts[..|acts| - 1]);
      ExecInv(acts[..|acts| - 1]);
      SteadyAct(Exec(acts[..|acts| - 1]), acts[|acts| - 1]);
    }
  }

  /** Without that hypothesis numbers do jump: a failed read republishes the first event on top of a
      finished topic and leaves the committed position where it was. */
  lemma FailedReadGoesBack(acts: seq<Action>)
    requires var log := Exec(acts).log;
             log != [] && log[0].Decoded? && EventsUpTo(log, 1) != []
    ensures var sys := Exec(acts);
            Exec(acts + [Crash] + [Start(false)] + [Poll] + [Send] + [Crash])
            == sys.(topic := sys.topic + [EventsUpTo(sys.log, 1)[0]], worker := Down)
  {
    ExecOne(acts, Crash);
    ExecOne(acts + [Crash], Start(false));
    ExecOne(acts + [Crash] + [Start(false)], Poll);
    ExecOne(acts + [Crash] + [Start(false)] + [Poll], Send);
    ExecOne(acts + [Crash] + [Start(false)] + [Poll] + [Send], Crash);
    hide Exec, Act;
    Relapse(Exec(acts));
  }

  lemma Relapse(sys: System)
    requires EngineOk(sys) && sys.log != [] && sys.log[0].Decoded? && EventsUpTo(sys.log, 1) != []
    ensures Act(Act(Act(Act(Act(sys, Crash), Start(false)), Poll), Send), Crash)
         == sys.(topic := sys.topic + [EventsUpTo(sys.log, 1)[0]], worker := Down)
  {
    hide EventsUpTo, StateAt, Step, Good;
    NextRecord(sys.log, 0);
    FirstState(sys.log);
    var events := Step(EMPTY, sys.log[0].cmd).events;
    assert EventsUpTo(sys.log, 1) == events by {
      assert [] + events == events;
    }
  }

  lemma FirstState(log: seq<Payload>)
    ensures StateAt(log, 0) == EMPTY && EventsUpTo(log, 0) == []
  {
  }

  lemma ExecOne(acts: seq<Action>, a: Action)
    ensures Exec(acts + [a]) == Act(Exec(acts), a)
  {
  }
}
