/**
 * Everything at once: users, order service, wallet, the crashing engine host and clearing as one machine over one
 * log and one topic.  Its states are states of the money path, so all that holds there holds here.
 */
module Pipeline {
  import opened History
  import opened Delivery
  import opened Reserve
  import opened Clearing
  import opened Exchange
  import Runner
  import opened Stalls
  import Trading

  // ---------- runs of the money path ----------

  /** The run without the events that were consumed again. */
  ghost function Once(m: Market, acts: seq<Trading.Action>): seq<Trading.Action> {
    if acts == [] then []
    else
      var front, last := acts[..|acts| - 1], acts[|acts| - 1];
      if last.Consume? && last.k < Trading.Exec(m, front).done then Once(m, front) else Once(m, front) + [last]
  }

  /** Redelivery is invisible: the same state is reached without any repeated event, whatever happened in between. */
  lemma {:induction false} RepeatsInvisible(m: Market, acts: seq<Trading.Action>)
    requires MarketOk(m) && Trading.Ordinary(m, acts)
    ensures Trading.Exec(m, acts) == Trading.Exec(m, Once(m, acts))
  {
    hide *;
    if acts == [] {
      NothingOnce(m);
    } else {
      var front, last := acts[..|acts| - 1], acts[|acts| - 1];
      assert acts == front + [last];
      Trading.OrdinaryLast(m, front, last);
      RepeatsInvisible(m, front);
      OnceLast(m, front, last);
      Trading.ExecOne(m, front, last);
      if last.Consume? && last.k < Trading.Exec(m, front).done {
        Trading.RepeatsChangeNothing(m, front, last.k);
      } else {
        Trading.ExecOne(m, Once(m, front), last);
      }
    }
  }

  lemma NothingOnce(m: Market)
    ensures Once(m, []) == []
  {
  }

  lemma OnceLast(m: Market, acts: seq<Trading.Action>, a: Trading.Action)
    ensures Once(m, acts + [a])
         == if a.Consume? && a.k < Trading.Exec(m, acts).done then Once(m, acts) else Once(m, acts) + [a]
  {
    hide Trading.Exec;
    assert (acts + [a])[..|acts|] == acts;
  }

  // ---------- the machine ----------

  /** `front` is clearing's committed position in the topic. */
  datatype Pipe = Pipe(world: Trading.World, sys: Runner.System, front: nat)

  const START := Pipe(Trading.GENESIS, Runner.BOOT, 0)

  /** Commands reach the log through the order service; other producers may leave undecodable records there. */
  datatype Move =
    | Business(act: Trading.Action)
    | Noise
    | Host(host: Runner.Action)
    | Read(pos: nat)

  ghost predicate Ready(p: Pipe) {
    Runner.EngineOk(p.sys)
  }

  ghost function Apply(p: Pipe, m: Market, move: Move): (p': Pipe)
    requires Ready(p)
    ensures Ready(p')
  {
    match move
    case Business(a) =>
      if a.Consume? then p
      else
        var w := Trading.Act(p.world, m, a);
        if |w.log| > |p.world.log| then
          p.(world := w, sys := Runner.Act(p.sys, Runner.Produce(Runner.Decoded(w.log[|w.log| - 1]))))
        else p.(world := w)
    case Noise => p.(sys := Runner.Act(p.sys, Runner.Produce(Runner.Undecodable)))
    case Host(h) => if h.Produce? then p else p.(sys := Runner.Act(p.sys, h))
    case Read(x) =>
      if x < |p.sys.topic| && x <= p.front then
        var e := p.sys.topic[x];
        var stuck := Handle(p.world.db, m, e).1.Stuck?;
        p.(world := Trading.Act(p.world, m, Trading.Consume(if e.seqNo == 0 then 0 else e.seqNo - 1)),
           front := if x == p.front && !stuck then p.front + 1 else p.front)
      else p
  }

  ghost function Reached(m: Market, moves: seq<Move>): (p: Pipe)
    ensures Ready(p)
  {
    if moves == [] then START else Apply(Reached(m, moves[..|moves| - 1]), m, moves[|moves| - 1])
  }

  /** Host and money path share the log, and clearing has taken in what lies below its position. */
  ghost predicate Joined(p: Pipe) {
    && Runner.Commands(p.sys.log) == p.world.log
    && p.front <= |p.sys.topic| && High(p.sys.topic[..p.front]) == p.world.done
  }

  ghost predicate Inv(p: Pipe, m: Market) {
    Ready(p) && Trading.Inv(p.world, m) && Runner.Inv(p.sys) && Joined(p)
  }

  lemma CommandsGrow(log: seq<Runner.Payload>, x: Runner.Payload)
    ensures Runner.Commands(log + [x]) == Runner.Commands(log) + if x.Decoded? then [x.cmd] else []
  {
    assert (log + [x])[..|log|] == log;
  }

  lemma TopicGrows(sys: Runner.System, h: Runner.Action, n: nat)
    requires Runner.EngineOk(sys) && n <= |sys.topic|
    ensures var sys' := Runner.Act(sys, h);
            n <= |sys'.topic| && sys'.topic[..n] == sys.topic[..n] && (!h.Produce? ==> sys'.log == sys.log)
  {
    hide Runner.PollOne;
  }

  lemma BusinessKeeps(p: Pipe, m: Market, a: Trading.Action)
    requires MarketOk(m) && Inv(p, m) && !a.Consume?
    requires Trading.Fits(m, a) || Trading.Act(p.world, m, a) == p.world
    ensures Inv(Apply(p, m, Business(a)), m)
  {
    hide Trading.Inv, Runner.Inv, High, Trading.Act;
    Trading.ActKeeps(p.world, m, a);
    DoneOnlyConsumes(p.world, m, a);
    LogGrows(p.world, m, a);
    var w := Trading.Act(p.world, m, a);
    if |w.log| > |p.world.log| {
      var x := Runner.Decoded(w.log[|w.log| - 1]);
      Runner.ActKeeps(p.sys, Runner.Produce(x));
      CommandsGrow(p.sys.log, x);
    }
  }

  lemma NoiseKeeps(p: Pipe, m: Market)
    requires Inv(p, m)
    ensures Inv(Apply(p, m, Noise), m)
  {
    hide Trading.Inv, Runner.Inv, High;
    Runner.ActKeeps(p.sys, Runner.Produce(Runner.Undecodable));
    CommandsGrow(p.sys.log, Runner.Undecodable);
    assert p.world.log + [] == p.world.log;
  }

  lemma HostKeeps(p: Pipe, m: Market, h: Runner.Action)
    requires Inv(p, m) && !h.Produce?
    ensures Inv(Apply(p, m, Host(h)), m)
  {
    hide Trading.Inv, Runner.Inv, High, Runner.Act;
    Runner.ActKeeps(p.sys, h);
    TopicGrows(p.sys, h, p.front);
  }

  /** What clearing reads at or before its position: the next number, or one it has taken in. */
  lemma ReadFacts(p: Pipe, m: Market, x: nat)
    requires Inv(p, m) && x < |p.sys.topic| && x <= p.front
    ensures var e, full := p.sys.topic[x], Emitted(p.world.log);
            && 1 <= e.seqNo <= |full| && e == full[e.seqNo - 1]
            && e.seqNo <= p.world.done + 1 && (x < p.front ==> e.seqNo <= p.world.done)
            && (x == p.front ==>
                  High(p.sys.topic[..x + 1]) == if e.seqNo > p.world.done then e.seqNo else p.world.done)
  {
    hide *;
    TopicOf(p, m);
    NextOrBefore(Emitted(p.world.log), p.sys.topic, x, p.front);
  }

  lemma ReadKeeps(p: Pipe, m: Market, x: nat)
    requires MarketOk(m) && Inv(p, m) && x < |p.sys.topic| && x <= p.front
    ensures Inv(Apply(p, m, Read(x)), m)
  {
    hide Trading.Inv, Runner.Inv, High, Trading.Act, Emitted, Handle, Runner.Commands, Runner.EngineOk;
    ReadFacts(p, m, x);
    var e := p.sys.topic[x];
    Trading.ActKeeps(p.world, m, Trading.Consume(e.seqNo - 1));
    ConsumeMoves(p.world, m, e.seqNo - 1);
  }

  lemma TopicOf(p: Pipe, m: Market)
    requires Inv(p, m)
    ensures Delivers(Emitted(p.world.log), p.sys.topic)
    ensures p.front <= |p.sys.topic| && High(p.sys.topic[..p.front]) == p.world.done
  {
    hide Delivers, Emitted, High, Ready, Trading.Inv;
  }

  /** Consuming moves on exactly when the event is the next one and not stuck; an earlier one is never stuck. */
  lemma ConsumeMoves(w: Trading.World, m: Market, k: nat)
    requires MarketOk(m) && Trading.Inv(w, m) && k < |Emitted(w.log)| && k <= w.done
    ensures var w' := Trading.Act(w, m, Trading.Consume(k));
            var stuck := Handle(w.db, m, Emitted(w.log)[k]).1.Stuck?;
            && w'.log == w.log && w'.done == (if k == w.done && !stuck then w.done + 1 else w.done)
            && (k < w.done ==> !stuck)
  {
    Trading.ConsumeActs(w, m, k);
    if k < w.done {
      Trading.HistLife(w.log);
      LifeCyclePrefix(Known(w.log), Emitted(w.log), w.done);
      hide Emitted, Known, LifeCycle, Accounted, Handle, Trading.AllWaiting;
      assert Emitted(w.log)[..w.done][k] == Emitted(w.log)[k];
      HandleAgain(w.db, m, Known(w.log), Emitted(w.log)[..w.done], k);
    }
  }

  lemma ApplyKeeps(p: Pipe, m: Market, move: Move)
    requires MarketOk(m) && Ready(p) && Inv(p, m)
    requires move.Business? && !move.act.Consume? ==>
               Trading.Fits(m, move.act) || Trading.Act(p.world, m, move.act) == p.world
    ensures Inv(Apply(p, m, move), m)
  {
    hide Inv, Apply, Trading.Fits, Trading.Act;
    match move
    case Business(a) =>
      if a.Consume? {
        Idle(p, m, move);
      } else {
        BusinessKeeps(p, m, a);
      }
    case Noise => NoiseKeeps(p, m);
    case Host(h) =>
      if h.Produce? {
        Idle(p, m, move);
      } else {
        HostKeeps(p, m, h);
      }
    case Read(x) =>
      if x < |p.sys.topic| && x <= p.front {
        ReadKeeps(p, m, x);
      } else {
        Idle(p, m, move);
      }
  }

  lemma Idle(p: Pipe, m: Market, move: Move)
    requires Ready(p)
    requires match move
             case Business(a) => a.Consume?
             case Noise => false
             case Host(h) => h.Produce?
             case Read(x) => !(x < |p.sys.topic| && x <= p.front)
    ensures Apply(p, m, move) == p
  {
  }

  lemma StartInv(m: Market)
    ensures Inv(START, m)
  {
    Trading.GenesisInv(m);
    Runner.ExecInv([]);
    assert Runner.BOOT.topic[..0] == [];
  }

  // ---------- what it does to money ----------

  /** What a move is to the money path. */
  function Meant(p: Pipe, acts: seq<Trading.Action>, move: Move): seq<Trading.Action> {
    match move
    case Business(a) => if a.Consume? then acts else acts + [a]
    case Read(x) =>
      if x < |p.sys.topic| && x <= p.front && p.sys.topic[x].seqNo > 0
      then acts + [Trading.Consume(p.sys.topic[x].seqNo - 1)] else acts
    case _ => acts
  }

  /** The money-path actions behind a run. */
  ghost function Behind(m: Market, moves: seq<Move>): seq<Trading.Action> {
    if moves == [] then []
    else
      var front := moves[..|moves| - 1];
      Meant(Reached(m, front), Behind(m, front), moves[|moves| - 1])
  }

  lemma BehindLast(m: Market, moves: seq<Move>, move: Move)
    ensures Reached(m, moves + [move]) == Apply(Reached(m, moves), m, move)
    ensures Behind(m, moves + [move]) == Meant(Reached(m, moves), Behind(m, moves), move)
  {
    hide Apply, Ready, Meant;
    assert (moves + [move])[..|moves|] == moves;
  }

  /** As long as the actions behind it fit or are refused, every state of the machine keeps both invariants. */
  lemma {:induction false} ReachedInv(m: Market, moves: seq<Move>)
    requires MarketOk(m) && Trading.Ordinary(m, Behind(m, moves))
    ensures Inv(Reached(m, moves), m) && Reached(m, moves).world == Trading.Exec(m, Behind(m, moves))
  {
    hide *;
    if moves == [] {
      NothingBehind(m);
    } else {
      var before, move := moves[..|moves| - 1], moves[|moves| - 1];
      assert moves == before + [move];
      StillOrdinary(m, before, move);
      ReachedInv(m, before);
      MoveFits(m, before, move);
      ReachedReady(m, before);
      ApplyKeeps(Reached(m, before), m, move);
      StepBehind(m, before, move);
      BehindLast(m, before, move);
    }
  }

  lemma ReachedReady(m: Market, moves: seq<Move>)
    ensures Ready(Reached(m, moves))
  {
  }

  lemma NothingBehind(m: Market)
    ensures Inv(Reached(m, []), m) && Reached(m, []).world == Trading.Exec(m, Behind(m, []))
  {
    StartInv(m);
  }

  lemma StillOrdinary(m: Market, moves: seq<Move>, move: Move)
    requires Trading.Ordinary(m, Behind(m, moves + [move]))
    ensures Trading.Ordinary(m, Behind(m, moves))
  {
    hide Trading.Ordinary, Reached, Behind;
    BehindLast(m, moves, move);
    var before, after := Behind(m, moves), Behind(m, moves + [move]);
    if after != before {
      assert after == before + [after[|before|]];
      Trading.OrdinaryLast(m, before, after[|before|]);
    }
  }

  lemma MoveFits(m: Market, moves: seq<Move>, move: Move)
    requires Trading.Ordinary(m, Behind(m, moves + [move]))
    requires Reached(m, moves).world == Trading.Exec(m, Behind(m, moves))
    ensures move.Business? && !move.act.Consume? ==>
              Trading.Fits(m, move.act) || Trading.Act(Reached(m, moves).world, m, move.act) == Reached(m, moves).world
  {
    hide Trading.Ordinary, Reached, Behind, Trading.Fits, Trading.Act, Trading.Exec;
    BehindLast(m, moves, move);
    if move.Business? && !move.act.Consume? {
      Trading.OrdinaryLast(m, Behind(m, moves), move.act);
      Trading.ExecOne(m, Behind(m, moves), move.act);
    }
  }

  /** Every reachable state of the whole pipeline is a state of the money path, reached without consuming any event
      twice: no crash, republishing or restart can be seen in anybody's balance. */
  lemma CrashesInvisible(m: Market, moves: seq<Move>)
    requires MarketOk(m) && Trading.Ordinary(m, Behind(m, moves))
    ensures Reached(m, moves).world == Trading.Exec(m, Behind(m, moves))
    ensures Reached(m, moves).world == Trading.Exec(m, Once(m, Behind(m, moves)))
  {
    hide *;
    ReachedInv(m, moves);
    RepeatsInvisible(m, Behind(m, moves));
  }

  lemma StepBehind(m: Market, moves: seq<Move>, move: Move)
    requires MarketOk(m) && Inv(Reached(m, moves), m)
    requires Reached(m, moves).world == Trading.Exec(m, Behind(m, moves))
    ensures Reached(m, moves + [move]).world == Trading.Exec(m, Behind(m, moves + [move]))
  {
    hide Inv, Trading.Act, Trading.Exec, Runner.Act, Runner.EngineOk, Handle, Reached, Behind;
    BehindLast(m, moves, move);
    var p, acts := Reached(m, moves), Behind(m, moves);
    match move
    case Business(a) => Trading.ExecOne(m, acts, a);
    case Read(x) =>
      if x < |p.sys.topic| && x <= p.front {
        PositiveNumber(p, m, x);
        Trading.ExecOne(m, acts, Trading.Consume(p.sys.topic[x].seqNo - 1));
      }
    case _ =>
  }

  lemma PositiveNumber(p: Pipe, m: Market, x: nat)
    requires Inv(p, m) && x < |p.sys.topic| && x <= p.front
    ensures p.sys.topic[x].seqNo > 0
  {
    hide *;
    ReadFacts(p, m, x);
  }
}
