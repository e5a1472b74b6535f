/**
 * The pipeline as a whole: commands in a log, an engine process that crashes and republishes, and consumers
 * that restart at earlier positions.  Each consumer ends up where a single crash-free pass would leave it.
 */
module EndToEnd {
  import opened Protocol
  import opened History
  import opened Delivery
  import opened Runner
  import opened Reserve
  import Database
  import Clearing
  import Exchange
  import opened Settlement
  import Replica
  import Agreement

  /** What a consumer reads is a delivery of the crash-free history, as far as it has got. */
  lemma ReadsOfTheTopic(acts: seq<Action>, c: seq<nat>)
    requires Reads(c, |Exec(acts).topic|)
    ensures var sys := Exec(acts);
            && Reach(c) <= |sys.topic| && InRange(c, |sys.topic|)
            && Delivers(AllEvents(sys.log), Pick(sys.topic, c))
            && High(Pick(sys.topic, c)) == High(sys.topic[..Reach(c)]) <= |AllEvents(sys.log)|
  {
    var sys := Exec(acts);
    ExecInv(acts);
    ReadsDeliver(AllEvents(sys.log), sys.topic, c);
    DedupIsPrefix(AllEvents(sys.log), Pick(sys.topic, c));
  }

  // ---------- clearing ----------

  /** The furthest position clearing may read next: it moves on only past events that are not stuck. */
  ghost function Front(db: Database.Rows, m: Market, t: seq<Event>, c: seq<nat>): nat
    requires InRange(c, |t|)
  {
    if c == [] then 0
    else
      var before, x := c[..|c| - 1], c[|c| - 1];
      var n := Front(db, m, t, before);
      if x == n && !Clearing.Handle(Exchange.Cleared(db, m, Pick(t, before)), m, t[x]).1.Stuck? then n + 1 else n
  }

  /** Positions a clearing process reads: one after the other, except for restarts at committed or earlier ones. */
  ghost predicate Consumes(db: Database.Rows, m: Market, t: seq<Event>, c: seq<nat>)
    requires InRange(c, |t|)
  {
    c == [] || (Consumes(db, m, t, c[..|c| - 1]) && c[|c| - 1] <= Front(db, m, t, c[..|c| - 1]))
  }

  lemma FrontLast(db: Database.Rows, m: Market, t: seq<Event>, c: seq<nat>, x: nat)
    requires InRange(c, |t|) && InRange(c + [x], |t|) && x < |t|
    ensures Consumes(db, m, t, c + [x]) <==> Consumes(db, m, t, c) && x <= Front(db, m, t, c)
    ensures var n := Front(db, m, t, c);
            Front(db, m, t, c + [x])
            == if x == n && !Clearing.Handle(Exchange.Cleared(db, m, Pick(t, c)), m, t[x]).1.Stuck? then n + 1 else n
  {
    hide Exchange.Cleared, Clearing.Handle, Pick;
    assert (c + [x])[..|c|] == c;
  }

  /** Positions stand for progress: clearing has taken in exactly the numbers below its position in the topic. */
  ghost predicate InStep(db: Database.Rows, m: Market, full: seq<Event>, t: seq<Event>, c: seq<nat>)
    requires InRange(c, |t|)
  {
    && Exchange.Clears(db, m, full, Pick(t, c)) && Front(db, m, t, c) <= |t|
    && Exchange.Progress(db, m, Pick(t, c)) == High(t[..Front(db, m, t, c)])
  }

  lemma {:induction false} FrontIsProgress(db: Database.Rows, m: Market, known: Orders, full: seq<Event>, t: seq<Event>,
                                           c: seq<nat>)
    requires MarketOk(m) && Exchange.Accounted(db, m, known, []) && LifeCycle(known, full)
    requires Delivers(full, t) && InRange(c, |t|) && Consumes(db, m, t, c)
    ensures InStep(db, m, full, t, c)
  {
    hide *;
    if c == [] {
      NothingConsumed(db, m, full, t);
    } else {
      var before, x := c[..|c| - 1], c[|c| - 1];
      assert c == before + [x];
      PickLast(t, before, x);
      FrontLast(db, m, t, before, x);
      FrontIsProgress(db, m, known, full, t, before);
      ReadStep(db, m, known, full, t, before, x);
    }
  }

  lemma NothingConsumed(db: Database.Rows, m: Market, full: seq<Event>, t: seq<Event>)
    ensures InRange([], |t|) && InStep(db, m, full, t, [])
  {
    assert Pick(t, []) == [] && t[..0] == [];
  }

  lemma ReadStep(db: Database.Rows, m: Market, known: Orders, full: seq<Event>, t: seq<Event>, c: seq<nat>, x: nat)
    requires MarketOk(m) && Exchange.Accounted(db, m, known, []) && LifeCycle(known, full)
    requires Delivers(full, t) && InRange(c, |t|) && InRange(c + [x], |t|) && x < |t|
    requires InStep(db, m, full, t, c) && x <= Front(db, m, t, c)
    ensures InStep(db, m, full, t, c + [x])
  {
    hide Exchange.Accounted, Exchange.Cleared, Exchange.Clears, Exchange.Progress, Clearing.Handle, Delivers, High,
         LifeCycle, Front, Postable;
    var n, d, e := Front(db, m, t, c), Pick(t, c), t[x];
    PickLast(t, c, x);
    hide Pick, InRange;
    FrontLast(db, m, t, c, x);
    NextOrBefore(full, t, x, n);
    Exchange.ClearsLast(db, m, full, d, e);
    Exchange.RedeliveredClearing(db, m, known, full, d);
    Exchange.ClearedStep(Exchange.Cleared(db, m, d), m, known, full, High(t[..n]), e);
  }

  /** However often the engine process and the clearing process restarted, and wherever clearing is stuck, the
      database is that of clearing the crash-free history once, as far as clearing's position in the topic. */
  lemma ClearingSurvivesCrashes(acts: seq<Action>, c: seq<nat>, db: Database.Rows, m: Market)
    requires MarketOk(m) && InRange(c, |Exec(acts).topic|) && Consumes(db, m, Exec(acts).topic, c)
    requires Exchange.Accounted(db, m, Known(Commands(Exec(acts).log)), [])
    ensures var sys := Exec(acts);
            && Front(db, m, sys.topic, c) <= |sys.topic|
            && var n := High(sys.topic[..Front(db, m, sys.topic, c)]);
            && n <= |AllEvents(sys.log)|
            && Exchange.Cleared(db, m, Pick(sys.topic, c)) == Exchange.Cleared(db, m, AllEvents(sys.log)[..n])
            && Exchange.Accounted(Exchange.Cleared(db, m, Pick(sys.topic, c)), m, Known(Commands(sys.log)),
                                  AllEvents(sys.log)[..n])
  {
    var sys := Exec(acts);
    var full := AllEvents(sys.log);
    ExecInv(acts);
    RunHist(Commands(sys.log));
    hide Exec, Known, Emitted, After, LifeCycle, Delivers, Consumes, Front, Exchange.Accounted, Exchange.Cleared;
    FrontIsProgress(db, m, Known(Commands(sys.log)), full, sys.topic, c);
    Exchange.RedeliveredClearing(db, m, Known(Commands(sys.log)), full, Pick(sys.topic, c));
  }

  // ---------- depth ----------

  /** Once the topic is complete and read to its end, the depth replica agrees with the crash-free book, and all
      reports it made on the way merge. */
  lemma DepthSurvivesCrashes(acts: seq<Action>, c: seq<nat>)
    requires Reads(c, |Exec(acts).topic|) && Reach(c) == |Exec(acts).topic|
    requires High(Exec(acts).topic) == |AllEvents(Exec(acts).log)|
    requires Agreement.Shallow(Commands(Exec(acts).log))
    ensures InRange(c, |Exec(acts).topic|)
    ensures Agreement.MergesAll(Replica.BLANK, Pick(Exec(acts).topic, c))
    ensures Agreement.Agrees(Replica.ApplyAll(Replica.BLANK, Pick(Exec(acts).topic, c)),
                             After(Commands(Exec(acts).log)))
  {
    var sys := Exec(acts);
    ReadsOfTheTopic(acts, c);
    assert sys.topic[..|sys.topic|] == sys.topic;
    hide Exec, Emitted, After, Agreement.Shallow, Agreement.Agrees, Agreement.MergesAll, Replica.ApplyAll;
    Agreement.ReplicaFollowsEngine(Commands(sys.log), Pick(sys.topic, c));
  }
}
