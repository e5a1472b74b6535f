/**
 * The money path as one state machine for one market: users place and cancel, commands reach the log or
 * are compensated, clearing consumes the engine's events in any at-least-once order, and money comes in
 * and goes out.  Its invariant holds in every state of the runs in which all freezes fit in their columns.
 */
module Trading {
  import opened Protocol
  import opened History
  import opened Duplicates
  import opened Sums
  import opened Ledger
  import opened LedgerSound
  import opened Database
  import opened Reserve
  import opened Clearing
  import opened OrderService
  import opened Accounting
  import opened Settlement
  import opened Exchange
  import opened WalletService
  import opened Transfers

  /** `done` events of the engine's history have been consumed; `pending` orders are frozen but not dispatched. */
  datatype World = World(db: Rows, log: seq<Command>, done: nat, pending: map<Id, PlaceCommand>)

  const GENESIS := World(Rows(NO_ROWS, map[], map[], map[]), [], 0, map[])

  datatype Action =
    | PlaceOrder(place: PlaceCommand)
    | Dispatch(id: Id)
    | DispatchFailed(id: Id)
    | CancelOrder(cancel: CancelCommand)
    | Consume(k: nat)
    | AdminCredit(bizId: string, user: Id, currency: Currency, amount: U64)
    | ReportDeposit(ref: DepositRef, user: Id, currency: Currency, amount: U64, confirmations: int)
    | CreditDeposit(ref: DepositRef, user: Id, currency: Currency, amount: U64)
    | WithdrawFunds(chain: Chain, withdrawalId: Id, user: Id, currency: Currency, amount: U64)

  ghost function Placing(w: World, m: Market, p: PlaceCommand): World {
    match CheckPlace(m, p)
    case Refused(_) => w
    case Accepted(reserved) =>
      var (db', result) := Freeze(w.db, m, p.orderId, p, reserved);
      if result.Placed? then w.(db := db', pending := w.pending[p.orderId := p]) else w
  }

  ghost function Consuming(w: World, m: Market, k: nat): World
    requires k < |Emitted(w.log)| && k <= w.done
  {
    var (db', out) := Handle(w.db, m, Emitted(w.log)[k]);
    w.(db := db', done := if k == w.done && !out.Stuck? then w.done + 1 else w.done)
  }

  /** One action; what is not possible now changes nothing.  An order id is the row's fresh identity.  Reporting
      and crediting a deposit are two steps, so that any number of handlers may interleave. */
  ghost function Act(w: World, m: Market, a: Action): World {
    match a
    case PlaceOrder(p) => if p.orderId !in w.db.orders then Placing(w, m, p) else w
    case Dispatch(id) =>
      if id in w.pending then w.(log := w.log + [Place(w.pending[id])], pending := w.pending - {id}) else w
    case DispatchFailed(id) =>
      if id in w.pending && CheckPlace(m, w.pending[id]).Accepted? then
        w.(db := Refund(w.db, m, id, w.pending[id], CheckPlace(m, w.pending[id]).reserved), pending := w.pending - {id})
      else w
    case CancelOrder(c) => if c.orderId in w.db.orders then w.(log := w.log + [Cancel(c)]) else w
    case Consume(k) => if k < |Emitted(w.log)| && k <= w.done then Consuming(w, m, k) else w
    case AdminCredit(bizId, user, c, amount) => w.(db := PostOnly(w.db, Deposit(bizId), CreditMoves(user, c, amount)))
    case ReportDeposit(ref, user, c, amount, confirmations) =>
      w.(db := Reported(w.db, ref, user, c, amount, confirmations))
    case CreditDeposit(ref, user, c, amount) =>
      if ref in w.db.deposits then w.(db := CreditOutput(w.db, ref, user, c, amount).0) else w
    case WithdrawFunds(chain, id, user, c, amount) => w.(db := Withdrawn(w.db, chain, id, user, c, amount).0)
  }

  ghost function Exec(m: Market, acts: seq<Action>): World {
    if acts == [] then GENESIS else Act(Exec(m, acts[..|acts| - 1]), m, acts[|acts| - 1])
  }

  /** The amount an order must freeze, or a withdrawal with its fee, fits in a signed 64-bit column. */
  predicate Fits(m: Market, a: Action) {
    match a
    case PlaceOrder(p) => Initial(m, p.side, p.price, p.qty) <= I64_MAX
    case WithdrawFunds(chain, _, _, _, amount) => amount as int + chain.withdrawFee <= I64_MAX
    case _ => true
  }

  /** Every action fits or was refused. */
  ghost predicate Ordinary(m: Market, acts: seq<Action>) {
    acts == [] ||
    (var front, last := acts[..|acts| - 1], acts[|acts| - 1];
     Ordinary(m, front) && (Fits(m, last) || Exec(m, acts) == Exec(m, front)))
  }

  lemma {:induction false} FittingIsOrdinary(m: Market, acts: seq<Action>)
    requires forall a | a in acts :: Fits(m, a)
    ensures Ordinary(m, acts)
  {
    hide Fits, Exec;
    if acts != [] {
      FittingIsOrdinary(m, acts[..|acts| - 1]);
    }
  }

  lemma OrdinaryLast(m: Market, acts: seq<Action>, a: Action)
    ensures Ordinary(m, acts + [a]) <==> Ordinary(m, acts) && (Fits(m, a) || Exec(m, acts + [a]) == Exec(m, acts))
  {
    hide Fits, Exec;
    assert (acts + [a])[..|acts|] == acts;
  }

  // ---------- the invariant ----------

  ghost predicate Waiting(w: World, m: Market, id: Id)
    requires id in w.pending
  {
    var p := w.pending[id];
    && p.orderId == id && id !in Known(w.log)
    && Outstanding(w.db, m, [], id, p)
    && CheckPlace(m, p) == Accepted(w.db.orders[id].reserved)
    && OrderUnfreeze(id) !in w.db.ledger.journals
  }

  ghost predicate Inv(w: World, m: Market) {
    && w.done <= |Emitted(w.log)|
    && Accounted(w.db, m, Known(w.log), Emitted(w.log)[..w.done])
    && AllWaiting(w, m)
  }

  lemma GenesisInv(m: Market)
    ensures Inv(GENESIS, m)
  {
  }

  ghost predicate AllWaiting(w: World, m: Market) {
    forall id | id in w.pending :: Waiting(w, m, id)
  }

  /** Orders still waiting whose rows are as before and whose ids are still unknown to the engine. */
  lemma StillWaiting(w: World, w': World, m: Market)
    requires AllWaiting(w, m)
    requires forall x | x in w'.pending ::
               && x in w.pending && w'.pending[x] == w.pending[x] && x !in Known(w'.log)
               && x in w'.db.orders && w'.db.orders[x] == w.db.orders[x]
               && OrderUnfreeze(x) !in w'.db.ledger.journals
    ensures AllWaiting(w', m)
  {
    hide Consumed, Initial, CheckPlace;
    forall x | x in w'.pending
      ensures Waiting(w', m, x)
    {
      assert Waiting(w, m, x);
    }
  }

  // ---------- the log grows ----------

  lemma {:induction false} Unnamed(m: Market, known: Orders, ev: seq<Event>, id: Id)
    requires LifeCycle(known, ev) && id !in known
    ensures Traded(ev, id) == 0 && !Ended(ev, id) && NotionalSpent(ev, id) == 0 && FeesSpent(m, ev, id) == 0
  {
    if ev != [] {
      Unnamed(m, known, ev[..|ev| - 1], id);
    }
  }

  /** Consumed events of the longer log are those of the shorter one. */
  lemma HistoryGrows(log: seq<Command>, cmd: Command, n: nat)
    requires n <= |Emitted(log)|
    ensures n <= |Emitted(log + [cmd])| && Emitted(log + [cmd])[..n] == Emitted(log)[..n]
    ensures LifeCycle(Known(log), Emitted(log)[..n])
  {
    AfterOne(log, cmd);
    RunHist(log);
    LifeCyclePrefix(Known(log), Emitted(log), n);
  }

  lemma DispatchKeeps(w: World, m: Market, id: Id)
    requires Inv(w, m) && id in w.pending
    ensures Inv(w.(log := w.log + [Place(w.pending[id])], pending := w.pending - {id}), m)
  {
    hide LifeCycle, Emitted, Known, Accounted, Waiting;
    var p := w.pending[id];
    var w' := w.(log := w.log + [Place(p)], pending := w.pending - {id});
    HistoryGrows(w.log, Place(p), w.done);
    AfterOne(w.log, Place(p));
    PendingFacts(w, m);
    PendingIds(w, m);
    assert Waiting(w, m, id);
    OneMoreKnown(w, m, id, Emitted(w.log)[..w.done]);
    assert Known(w'.log) == Known(w.log)[id := p];
    StillWaiting(w, w', m);
  }

  lemma PendingIds(w: World, m: Market)
    requires AllWaiting(w, m)
    ensures forall x | x in w.pending :: w.pending[x].orderId == x
  {
    hide Outstanding, CheckPlace;
    assert forall x | x in w.pending :: Waiting(w, m, x);
  }

  /** The engine learns of an order that waits: nothing of its freeze has been consumed. */
  lemma OneMoreKnown(w: World, m: Market, id: Id, ev: seq<Event>)
    requires id in w.pending && Waiting(w, m, id)
    requires LifeCycle(Known(w.log), ev) && Accounted(w.db, m, Known(w.log), ev)
    ensures Accounted(w.db, m, Known(w.log)[id := w.pending[id]], ev)
  {
    Unnamed(m, Known(w.log), ev, id);
    FreshConsumed(m, ev, w.pending[id], id);
    hide LifeCycle, Known, Sound, OneWallet, FrozenIsHeld, Ended, Traded, NotionalSpent, FeesSpent, Initial,
         CheckPlace, Consumed, TradeCount;
    assert Outstanding(w.db, m, ev, id, w.pending[id]);
    hide Outstanding;
  }

  /** What waiting says about rows and journals. */
  lemma PendingFacts(w: World, m: Market)
    requires AllWaiting(w, m)
    ensures forall x | x in w.pending ::
              x in w.db.orders && x !in Known(w.log) && OrderUnfreeze(x) !in w.db.ledger.journals
  {
  }

  lemma FreshConsumed(m: Market, ev: seq<Event>, p: PlaceCommand, id: Id)
    requires Traded(ev, id) == 0 && NotionalSpent(ev, id) == 0 && FeesSpent(m, ev, id) == 0
    ensures Consumed(m, ev, p, id) == 0 && Consumed(m, [], p, id) == 0
  {
  }

  lemma CancelLogged(w: World, m: Market, c: CancelCommand)
    requires Inv(w, m)
    ensures Inv(w.(log := w.log + [Cancel(c)]), m)
  {
    HistoryGrows(w.log, Cancel(c), w.done);
    AfterOne(w.log, Cancel(c));
    PendingFacts(w, m);
    hide LifeCycle, Emitted, Known, Accounted, Waiting;
    StillWaiting(w, w.(log := w.log + [Cancel(c)]), m);
  }

  // ---------- consuming ----------

  /** Orders that an event does not name are not touched by consuming it. */
  lemma HandleTouches(db: Rows, m: Market, e: Event, id: Id)
    requires !Names(e, id) && id in db.orders
    ensures var db' := Handle(db, m, e).0;
            && id in db'.orders && db'.orders[id] == db.orders[id]
            && (OrderUnfreeze(id) in db'.ledger.journals <==> OrderUnfreeze(id) in db.ledger.journals)
  {
    match e.kind
    case TradeMade(t) =>
      if QuoteOf(m, t).Ok? {
        PostedJournals(db.ledger, TradeSettled(t.tradeId), SettleMoves(m, t, QuoteOf(m, t).value));
      }
    case OrderChanged(u) =>
      if u.orderId in db.orders {
        PostedJournals(db.ledger, OrderUnfreeze(u.orderId), ReleaseMoves(m, db.orders[u.orderId]));
      }
  }

  lemma PostedJournals(t: Tables, key: JournalKey, moves: seq<Move>)
    ensures Posted(t, key, moves).Ok? ==> Posted(t, key, moves).value.journals == t.journals + {key}
  {
    if Posted(t, key, moves).Ok? {
      JournalGrows(t.(journals := t.journals + {key}), key, moves);
    }
  }

  lemma PendingUntouched(w: World, m: Market, k: nat)
    requires Inv(w, m) && k < |Emitted(w.log)|
    ensures var db' := Handle(w.db, m, Emitted(w.log)[k]).0;
            forall x | x in w.pending ::
              && x in db'.orders && db'.orders[x] == w.db.orders[x]
              && OrderUnfreeze(x) !in db'.ledger.journals
  {
    RunHist(w.log);
    LifeCycleAt(Known(w.log), Emitted(w.log), k);
    var e := Emitted(w.log)[k];
    hide LifeCycle, Emitted, Known, Handle, Accounted, Hist, Consumed, Initial, CheckPlace;
    forall x | x in w.pending
      ensures var db' := Handle(w.db, m, e).0;
              && x in db'.orders && db'.orders[x] == w.db.orders[x]
              && OrderUnfreeze(x) !in db'.ledger.journals
    {
      assert Waiting(w, m, x);
      HandleTouches(w.db, m, e, x);
    }
  }

  /** Repeating an event that was consumed before changes nothing. */
  lemma ConsumeAgain(w: World, m: Market, k: nat)
    requires MarketOk(m) && Inv(w, m) && k < w.done
    ensures k < |Emitted(w.log)| && Consuming(w, m, k) == w
  {
    HistLife(w.log);
    LifeCyclePrefix(Known(w.log), Emitted(w.log), w.done);
    hide LifeCycle, Emitted, Known, Handle, Accounted, Waiting;
    assert Emitted(w.log)[..w.done][k] == Emitted(w.log)[k];
    HandleAgain(w.db, m, Known(w.log), Emitted(w.log)[..w.done], k);
  }

  /** The next event with the history it extends. */
  lemma NextInLog(log: seq<Command>, n: nat)
    requires n < |Emitted(log)|
    ensures Emitted(log)[..n + 1] == Emitted(log)[..n] + [Emitted(log)[n]]
    ensures LifeCycle(Known(log), Emitted(log)[..n] + [Emitted(log)[n]])
    ensures EventOk(Known(log), Emitted(log)[..n], Emitted(log)[n])
  {
    HistLife(log);
    hide Emitted, Known;
    LifeCyclePrefix(Known(log), Emitted(log), n + 1);
    LifeCycleAt(Known(log), Emitted(log), n);
    hide LifeCycle;
    assert Emitted(log)[..n + 1] == Emitted(log)[..n] + [Emitted(log)[n]];
  }

  lemma ConsumeNext(w: World, m: Market)
    requires MarketOk(m) && Inv(w, m) && w.done < |Emitted(w.log)|
    ensures Inv(Consuming(w, m, w.done), m)
  {
    hide LifeCycle, Emitted, Known, Handle, Accounted, Postable, Waiting, EventOk;
    NextInLog(w.log, w.done);
    HandleNext(w.db, m, Known(w.log), Emitted(w.log)[..w.done], Emitted(w.log)[w.done]);
    ConsumeWaits(w, m, w.done);
  }

  lemma ConsumeWaits(w: World, m: Market, k: nat)
    requires Inv(w, m) && k < |Emitted(w.log)| && k <= w.done
    ensures AllWaiting(Consuming(w, m, k), m)
  {
    PendingUntouched(w, m, k);
    PendingFacts(w, m);
    hide LifeCycle, Emitted, Known, Handle, Accounted, Waiting;
    StillWaiting(w, Consuming(w, m, k), m);
  }

  lemma HistLife(log: seq<Command>)
    ensures LifeCycle(Known(log), Emitted(log))
  {
    RunHist(log);
  }

  // ---------- placing and compensating ----------

  /** What a successful freeze leaves behind. */
  ghost predicate Froze(db: Rows, db': Rows, m: Market, p: PlaceCommand, reserved: I64) {
    && db' == db.(ledger := db'.ledger, orders := db.orders[p.orderId := RowFor(p, reserved)])
    && db'.ledger.journals == db.ledger.journals + {OrderFreeze(p.orderId)}
    && var c := HeldCurrency(m, p.side);
    forall a: Account ::
      Balance(db'.ledger, a) == Balance(db.ledger, a)
        + if a == UserAccount(p.userId, c, Frozen) then reserved
          else if a == UserAccount(p.userId, c, Available) then -(reserved as int) else 0
  }

  lemma FrozenAdded(db: Rows, db': Rows, m: Market, p: PlaceCommand, reserved: I64)
    requires FrozenIsHeld(db, m) && Froze(db, db', m, p, reserved)
    requires p.orderId !in db.orders && OrderUnfreeze(p.orderId) !in db.ledger.journals
    ensures FrozenIsHeld(db', m)
  {
    forall user: Id, c: Currency
      ensures Balance(db'.ledger, UserAccount(user, c, Frozen)) == Sum(HeldMap(db', m, user, c))
    {
      HeldAdded(db, db', m, p.orderId, RowFor(p, reserved), user, c);
    }
  }

  lemma PlacedKeeps(w: World, w': World, m: Market, p: PlaceCommand, reserved: I64)
    requires MarketOk(m) && Inv(w, m) && Froze(w.db, w'.db, m, p, reserved)
    requires w' == w.(db := w'.db, pending := w.pending[p.orderId := p])
    requires p.orderId !in w.db.orders && CheckPlace(m, p) == Accepted(reserved) && 0 < reserved
    requires reserved == Initial(m, p.side, p.price, p.qty)
    requires Sound(w'.db.ledger) && OneWallet(w'.db.ledger)
    ensures Inv(w', m)
  {
    CheckedReserve(m, p);
    hide CheckPlace, Sound, OneWallet, Emitted, Known, Initial, Froze, Accounted, AllWaiting;
    PlacedAccounted(w.db, w'.db, m, Known(w.log), Emitted(w.log)[..w.done], p, reserved);
    PlacedWaits(w, w', m, p, reserved);
  }

  lemma PlacedAccounted(db: Rows, db': Rows, m: Market, known: Orders, ev: seq<Event>, p: PlaceCommand, reserved: I64)
    requires Accounted(db, m, known, ev) && Froze(db, db', m, p, reserved) && p.orderId !in db.orders && 0 < reserved
    requires Sound(db'.ledger) && OneWallet(db'.ledger)
    ensures Accounted(db', m, known, ev)
  {
    hide Sound, OneWallet, Initial, Froze, FrozenIsHeld, Ended, TradeCount, Consumed;
    FrozeRows(db, db', m, p, reserved);
    FrozenAdded(db, db', m, p, reserved);
    StillOutstanding(db, db', m, ev, known);
    JournaledElsewhere(db, db', known, ev);
    hide Journaled, Outstanding;
  }

  lemma PlacedWaits(w: World, w': World, m: Market, p: PlaceCommand, reserved: I64)
    requires Inv(w, m) && Froze(w.db, w'.db, m, p, reserved)
    requires w' == w.(db := w'.db, pending := w.pending[p.orderId := p])
    requires p.orderId !in w.db.orders && CheckPlace(m, p) == Accepted(reserved)
    requires reserved == Initial(m, p.side, p.price, p.qty)
    requires p.side.Bid? ==> p.orderType.Limit? && p.price.Some?
    ensures AllWaiting(w', m)
  {
    hide CheckPlace, Sound, OneWallet, Emitted, Known, Initial, Froze, FrozenIsHeld, Ended, TradeCount, Consumed;
    FrozeRows(w.db, w'.db, m, p, reserved);
    UnknownOrder(w.db, m, Emitted(w.log)[..w.done], Known(w.log), p.orderId);
    hide Outstanding, Accounted;
    PendingFacts(w, m);
    NoRelease(w, m, p.orderId);
    StillWaiting(w, w'.(pending := w.pending), m);
    NewWaiting(w', m, p, reserved);
    assert forall x | x in w.pending :: Waiting(w'.(pending := w.pending), m, x);
  }

  /** Only orders with a row have been released. */
  lemma NoRelease(w: World, m: Market, id: Id)
    requires Inv(w, m) && id !in w.db.orders
    ensures OrderUnfreeze(id) !in w.db.ledger.journals
  {
    hide Sound, OneWallet, FrozenIsHeld, Outstanding, Ended, AllWaiting;
  }

  lemma UnknownOrder(db: Rows, m: Market, ev: seq<Event>, known: Orders, id: Id)
    requires AllOutstanding(db, m, ev, known) && id !in db.orders
    ensures id !in known
  {
    hide Consumed, Initial;
    assert forall x | x in known :: Outstanding(db, m, ev, x, known[x]) && x in db.orders;
  }

  lemma NewWaiting(w: World, m: Market, p: PlaceCommand, reserved: I64)
    requires p.orderId in w.pending && w.pending[p.orderId] == p && p.orderId !in Known(w.log)
    requires p.orderId in w.db.orders && w.db.orders[p.orderId] == RowFor(p, reserved)
    requires CheckPlace(m, p) == Accepted(reserved) && reserved == Initial(m, p.side, p.price, p.qty)
    requires p.side.Bid? ==> p.orderType.Limit? && p.price.Some?
    requires OrderUnfreeze(p.orderId) !in w.db.ledger.journals
    ensures Waiting(w, m, p.orderId)
  {
    FreshConsumed(m, [], p, p.orderId);
  }

  lemma FrozeRows(db: Rows, db': Rows, m: Market, p: PlaceCommand, reserved: I64)
    requires Froze(db, db', m, p, reserved)
    ensures db'.orders == db.orders[p.orderId := RowFor(p, reserved)]
    ensures db'.ledger.journals == db.ledger.journals + {OrderFreeze(p.orderId)}
  {
  }

  lemma PlaceKeeps(w: World, m: Market, p: PlaceCommand)
    requires MarketOk(m) && Inv(w, m)
    requires p.orderId !in w.db.orders && Initial(m, p.side, p.price, p.qty) <= I64_MAX
    ensures Inv(Placing(w, m, p), m)
  {
    hide Inv, CheckPlace, Initial, FreezeMoves, CheckPasses, PostMoves;
    if CheckPlace(m, p).Accepted? && Freeze(w.db, m, p.orderId, p, CheckPlace(m, p).reserved).1.Placed? {
      var reserved := CheckPlace(m, p).reserved;
      CheckedReserve(m, p);
      InvParts(w, m);
      hide Sound, OneWallet;
      FreezePosting(w.db.ledger, OrderFreeze(p.orderId), m, p.userId, p.side, reserved);
      hide Posted;
      PlacedKeeps(w, Placing(w, m, p), m, p, reserved);
    }
  }

  /** A placement keeps the invariant exactly when it is refused or its freeze fits in the column. */
  lemma PlacingIff(w: World, m: Market, p: PlaceCommand)
    requires MarketOk(m) && Inv(w, m) && p.orderId !in w.db.orders
    ensures Inv(Placing(w, m, p), m) <==> Placing(w, m, p) == w || Initial(m, p.side, p.price, p.qty) <= I64_MAX
  {
    hide Inv, Initial;
    if Initial(m, p.side, p.price, p.qty) <= I64_MAX {
      PlaceKeeps(w, m, p);
    }
    if Placing(w, m, p) != w && Inv(Placing(w, m, p), m) {
      WaitingFits(Placing(w, m, p), m, p);
    }
  }

  lemma WaitingFits(w: World, m: Market, p: PlaceCommand)
    requires Inv(w, m) && p.orderId in w.pending && w.pending[p.orderId] == p
    ensures Initial(m, p.side, p.price, p.qty) <= I64_MAX
  {
    hide Accounted, Initial, Consumed, CheckPlace, Emitted;
    assert Waiting(w, m, p.orderId);
  }

  /** Compensation gives back exactly the freeze of an order that never reached the log. */
  lemma RefundKeeps(w: World, m: Market, id: Id)
    requires MarketOk(m) && Inv(w, m) && id in w.pending && CheckPlace(m, w.pending[id]).Accepted?
    ensures var w' := Act(w, m, DispatchFailed(id));
            Inv(w', m)
            && w'.db.orders == w.db.orders
            && (OrderUnfreeze(id) in w'.db.ledger.journals || w.db.orders[id].reserved == 0)
  {
    hide Emitted, Known, CheckPlace, Posted, ReleaseMoves, Sound, OneWallet, FrozenIsHeld, Ended, TradeCount,
         Consumed, Initial;
    var p := w.pending[id];
    assert Waiting(w, m, id);
    var row := w.db.orders[id];
    assert RowFor(p, row.reserved) == row;
    var ev := Emitted(w.log)[..w.done];
    if row.reserved > 0 {
      ReleasePosts(w.db, m, id);
    }
    var w' := Act(w, m, DispatchFailed(id));
    PendingFacts(w, m);
    StillOutstanding(w.db, w'.db, m, ev, Known(w.log));
    StillWaiting(w, w', m);
    hide Outstanding, Waiting;
  }

  // ---------- deposits and withdrawals ----------

  /** Postings that touch neither frozen user balances nor any asset but the wallet. */
  predicate Peripheral(key: JournalKey, moves: seq<Move>) {
    && (key.Deposit? || key.Withdraw?)
    && forall i :: 0 <= i < |moves| ==>
         var a := moves[i].account;
         !(a.ownerType.User? && a.kind.Frozen?) && (a.ownerType.System? ==> a == Wallet(a.currency))
  }

  lemma {:induction false} Untouched(t: Tables, key: JournalKey, moves: seq<Move>, a: Account)
    requires PostMoves(t, key, moves).Ok? && forall i :: 0 <= i < |moves| ==> moves[i].account != a
    ensures Balance(PostMoves(t, key, moves).value, a) == Balance(t, a)
    decreases |moves|
  {
    if moves != [] {
      Untouched(PostMove(t, key, moves[0]).value, key, moves[1..], a);
    }
  }

  lemma PeripheralLedger(t: Tables, key: JournalKey, moves: seq<Move>)
    requires Sound(t) && OneWallet(t) && Narrow(moves) && Peripheral(key, moves) && Posted(t, key, moves).Ok?
    ensures var t' := Posted(t, key, moves).value;
            && Sound(t') && OneWallet(t') && t'.journals == t.journals + {key}
            && forall user: Id, c: Currency ::
                 Balance(t', UserAccount(user, c, Frozen)) == Balance(t, UserAccount(user, c, Frozen))
  {
    var t0 := t.(journals := t.journals + {key});
    NarrowPostingKeeps(t, key, moves);
    PostedAccounts(t0, key, moves);
    PostedJournals(t, key, moves);
    forall user: Id, c: Currency {
      Untouched(t0, key, moves, UserAccount(user, c, Frozen));
    }
  }

  /** Such a posting, successful or not, with whatever it does to deposit and withdrawal rows. */
  lemma PeripheralKeeps(w: World, m: Market, db': Rows, key: JournalKey, moves: seq<Move>)
    requires Inv(w, m) && Narrow(moves) && Peripheral(key, moves)
    requires db'.orders == w.db.orders && db'.ledger == Committed(w.db.ledger, Posted(w.db.ledger, key, moves))
    ensures Inv(w.(db := db'), m)
  {
    var w' := w.(db := db');
    if Posted(w.db.ledger, key, moves).Ok? {
      PeripheralLedger(w.db.ledger, key, moves);
    }
    hide Posted, Narrow;
    SameOrdersKeep(w, w', m);
  }

  /** Orders, freezes and the journals of trades and releases are as before. */
  lemma SameOrdersKeep(w: World, w': World, m: Market)
    requires Inv(w, m) && w' == w.(db := w'.db) && w'.db.orders == w.db.orders
    requires Sound(w'.db.ledger) && OneWallet(w'.db.ledger)
    requires forall x: nat :: TradeSettled(x) in w'.db.ledger.journals <==> TradeSettled(x) in w.db.ledger.journals
    requires forall x: Id :: OrderUnfreeze(x) in w'.db.ledger.journals <==> OrderUnfreeze(x) in w.db.ledger.journals
    requires forall user: Id, c: Currency ::
               Balance(w'.db.ledger, UserAccount(user, c, Frozen)) == Balance(w.db.ledger, UserAccount(user, c, Frozen))
    ensures Inv(w', m)
  {
    hide Emitted, Known, LifeCycle, Sound, OneWallet, Ended, TradeCount, Consumed, Initial, CheckPlace;
    var ev := Emitted(w.log)[..w.done];
    PendingFacts(w, m);
    StillOutstanding(w.db, w'.db, m, ev, Known(w.log));
    JournaledElsewhere(w.db, w'.db, Known(w.log), ev);
    hide Outstanding, Waiting, Journaled;
    StillWaiting(w, w', m);
    FrozenStays(w.db, w'.db, m);
  }

  lemma FrozenStays(db: Rows, db': Rows, m: Market)
    requires FrozenIsHeld(db, m) && db'.orders == db.orders
    requires forall x: Id :: OrderUnfreeze(x) in db'.ledger.journals <==> OrderUnfreeze(x) in db.ledger.journals
    requires forall user: Id, c: Currency ::
               Balance(db'.ledger, UserAccount(user, c, Frozen)) == Balance(db.ledger, UserAccount(user, c, Frozen))
    ensures FrozenIsHeld(db', m)
  {
    forall user: Id, c: Currency
      ensures Balance(db'.ledger, UserAccount(user, c, Frozen)) == Sum(HeldMap(db', m, user, c))
    {
      HeldSame(db, db', m, user, c);
    }
  }

  lemma CreditNarrow(bizId: string, user: Id, c: Currency, amount: U64)
    ensures Narrow(CreditMoves(user, c, amount)) && Peripheral(Deposit(bizId), CreditMoves(user, c, amount))
  {
    var ms := CreditMoves(user, c, amount);
    assert ms[..1][..0] == [];
    forall d: Currency
      ensures Count(ms, true, d) <= 2 && Count(ms, false, d) <= 2
    {
      assert Count(ms[..1], true, d) <= 1 && Count(ms[..1], false, d) <= 1;
    }
  }

  function OneCount(x: Move, debit: bool, c: Currency): nat {
    if x.account.currency == c && IsDebit(x.account.ownerType, x.delta) == debit then 1 else 0
  }

  lemma Count3(x: Move, y: Move, z: Move, debit: bool, c: Currency)
    ensures Count([x, y, z], debit, c) == OneCount(x, debit, c) + OneCount(y, debit, c) + OneCount(z, debit, c)
  {
    assert [x, y, z][..2] == [x, y] && [x, y][..1] == [x] && [x][..0] == [];
    assert Count([x], debit, c) == OneCount(x, debit, c);
    assert Count([x, y], debit, c) == Count([x], debit, c) + OneCount(y, debit, c);
  }

  lemma DebitNarrow(id: Id, user: Id, c: Currency, amount: U64, fee: U64)
    requires 0 < amount && amount as int + fee <= I64_MAX
    ensures Narrow(DebitMoves(user, c, amount, fee)) && Peripheral(Withdraw(id), DebitMoves(user, c, amount, fee))
  {
    var ms := DebitMoves(user, c, amount, fee);
    SignedSmall(amount as int + fee);
    SignedSmall(amount);
    SignedSmall(fee);
    SignedSmall(-(amount as int + fee));
    SignedSmall(-(amount as int));
    assert ms == [ms[0], ms[1], ms[2]];
    forall d: Currency
      ensures Count(ms, true, d) <= 2 && Count(ms, false, d) <= 2
    {
      Count3(ms[0], ms[1], ms[2], true, d);
      Count3(ms[0], ms[1], ms[2], false, d);
    }
  }

  /** The invariant survives an action exactly when the action fits or is refused. */
  lemma ActKeeps(w: World, m: Market, a: Action)
    requires MarketOk(m) && Inv(w, m)
    ensures Inv(Act(w, m, a), m) <==> Act(w, m, a) == w || Fits(m, a)
  {
    hide Inv, Placing, Consuming, Refund, Initial, CheckPlace, Emitted, CreditMoves, DebitMoves, Posted, Reported,
         Withdrawn;
    match a
    case PlaceOrder(p) =>
      if p.orderId !in w.db.orders {
        PlacingIff(w, m, p);
      }
    case Dispatch(id) =>
      if id in w.pending {
        DispatchKeeps(w, m, id);
      }
    case DispatchFailed(id) =>
      if id in w.pending && CheckPlace(m, w.pending[id]).Accepted? {
        RefundKeeps(w, m, id);
      }
    case CancelOrder(c) =>
      if c.orderId in w.db.orders {
        CancelLogged(w, m, c);
      }
    case Consume(k) =>
      if k < |Emitted(w.log)| && k <= w.done {
        if k < w.done {
          ConsumeAgain(w, m, k);
        } else {
          ConsumeNext(w, m);
        }
      }
    case AdminCredit(bizId, user, c, amount) =>
      CreditNarrow(bizId, user, c, amount);
      PeripheralKeeps(w, m, PostOnly(w.db, Deposit(bizId), CreditMoves(user, c, amount)), Deposit(bizId),
                      CreditMoves(user, c, amount));
    case ReportDeposit(ref, user, c, amount, confirmations) =>
      ReportKeeps(w, m, ref, user, c, amount, confirmations);
    case CreditDeposit(ref, user, c, amount) =>
      if ref in w.db.deposits {
        CreditNarrow(OnchainId(ref), user, c, amount);
        PeripheralKeeps(w, m, CreditOutput(w.db, ref, user, c, amount).0, Deposit(OnchainId(ref)),
                        CreditMoves(user, c, amount));
      }
    case WithdrawFunds(chain, id, user, c, amount) => WithdrawIff(w, m, chain, id, user, c, amount);
  }

  lemma ReportKeeps(w: World, m: Market, ref: DepositRef, user: Id, c: Currency, amount: U64, confirmations: int)
    requires Inv(w, m)
    ensures Inv(w.(db := Reported(w.db, ref, user, c, amount, confirmations)), m)
  {
    InvParts(w, m);
    hide Inv, Sound, OneWallet;
    SameOrdersKeep(w, w.(db := Reported(w.db, ref, user, c, amount, confirmations)), m);
  }

  lemma InvParts(w: World, m: Market)
    requires Inv(w, m)
    ensures Sound(w.db.ledger) && OneWallet(w.db.ledger) && FrozenIsHeld(w.db, m)
  {
  }

  lemma WithdrawKeeps(w: World, m: Market, chain: Chain, id: Id, user: Id, c: Currency, amount: U64)
    requires Inv(w, m) && 0 < amount && amount as int + chain.withdrawFee <= I64_MAX
    requires Narrow(DebitMoves(user, c, amount, chain.withdrawFee))
    requires Peripheral(Withdraw(id), DebitMoves(user, c, amount, chain.withdrawFee))
    ensures Inv(w.(db := Withdrawn(w.db, chain, id, user, c, amount).0), m)
  {
    hide Inv, Posted, DebitMoves, Narrow, Peripheral, Cast;
    var db' := Withdrawn(w.db, chain, id, user, c, amount).0;
    if db' != w.db {
      PeripheralKeeps(w, m, db', Withdraw(id), DebitMoves(user, c, amount, chain.withdrawFee));
    }
  }

  /** A withdrawal: the same, because a negated total that wraps breaks the books. */
  lemma WithdrawIff(w: World, m: Market, chain: Chain, id: Id, user: Id, c: Currency, amount: U64)
    requires Inv(w, m)
    ensures var w' := w.(db := Withdrawn(w.db, chain, id, user, c, amount).0);
            Inv(w', m) <==> w' == w || amount as int + chain.withdrawFee <= I64_MAX
  {
    hide Inv, Posted, DebitMoves, Narrow, Peripheral, Cast;
    if amount as int + chain.withdrawFee <= I64_MAX {
      if 0 < amount {
        DebitNarrow(id, user, c, amount, chain.withdrawFee);
        WithdrawKeeps(w, m, chain, id, user, c, amount);
      }
    } else if Withdrawn(w.db, chain, id, user, c, amount).0 != w.db {
      InvParts(w, m);
      hide Sound, OneWallet;
      CastNonNegative(amount);
      CastNonNegative(chain.withdrawFee);
      WithdrawalSoundIff(w.db.ledger, id, user, c, amount, chain.withdrawFee);
      NeverSound(w.(db := Withdrawn(w.db, chain, id, user, c, amount).0), m);
    }
  }

  lemma CastNonNegative(x: U64)
    ensures 0 <= Cast(x) ==> x <= I64_MAX
  {
  }

  lemma NeverSound(w: World, m: Market)
    requires !Sound(w.db.ledger)
    ensures !Inv(w, m)
  {
  }

  lemma {:induction false} ExecInv(m: Market, acts: seq<Action>)
    requires MarketOk(m) && Ordinary(m, acts)
    ensures Inv(Exec(m, acts), m)
  {
    hide Inv, Act, Fits;
    if acts == [] {
      GenesisInv(m);
    } else {
      ExecInv(m, acts[..|acts| - 1]);
      ActKeeps(Exec(m, acts[..|acts| - 1]), m, acts[|acts| - 1]);
    }
  }

  /** The invariant holds in every state of the run. */
  ghost predicate Throughout(m: Market, acts: seq<Action>) {
    Inv(Exec(m, acts), m) && (acts != [] ==> Throughout(m, acts[..|acts| - 1]))
  }

  /** Exactly the runs in which every action fits or is refused keep it from the start to the end. */
  lemma {:induction false} ThroughoutIff(m: Market, acts: seq<Action>)
    requires MarketOk(m)
    ensures Throughout(m, acts) <==> Ordinary(m, acts)
  {
    hide Inv, Act, Fits;
    if acts == [] {
      GenesisInv(m);
    } else {
      var front := acts[..|acts| - 1];
      ThroughoutIff(m, front);
      if Ordinary(m, front) {
        ExecInv(m, front);
        ActKeeps(Exec(m, front), m, acts[|acts| - 1]);
      }
    }
  }

  // ---------- what holds in every state of an ordinary run ----------

  /** Each user's frozen balance is the sum of what the user's unreleased orders hold in that currency. */
  lemma FrozenIsOpenReserves(m: Market, acts: seq<Action>, user: Id, c: Currency)
    requires MarketOk(m) && Ordinary(m, acts)
    ensures var w := Exec(m, acts);
            Balance(w.db.ledger, UserAccount(user, c, Frozen)) == Sum(HeldMap(w.db, m, user, c))
  {
    ExecInv(m, acts);
  }

  /** In such runs the guarded deductions always took effect: a row holds its freeze minus what its trades consumed. */
  lemma ReservedTracksTrades(m: Market, acts: seq<Action>, id: Id)
    requires MarketOk(m) && Ordinary(m, acts) && id in Known(Exec(m, acts).log)
    ensures var w := Exec(m, acts);
            var p := Known(w.log)[id];
            && id in w.db.orders && w.done <= |Emitted(w.log)|
            && w.db.orders[id].reserved
               == Initial(m, p.side, p.price, p.qty) - Consumed(m, Emitted(w.log)[..w.done], p, id) >= 0
  {
    ExecInv(m, acts);
    var w := Exec(m, acts);
    assert Outstanding(w.db, m, Emitted(w.log)[..w.done], id, Known(w.log)[id]);
  }

  /** The next trade is settled iff neither the proceeds nor the fees round down to nothing; it never lacks
      money, and it is never poison.  If it cannot be settled, nothing changes and clearing stays where it is. */
  lemma NextTradeExact(m: Market, acts: seq<Action>)
    requires MarketOk(m) && Ordinary(m, acts)
    requires var w := Exec(m, acts); w.done < |Emitted(w.log)| && Emitted(w.log)[w.done].kind.TradeMade?
    ensures var w := Exec(m, acts);
            var t := Emitted(w.log)[w.done].kind.trade;
            var (db', out) := Clearing.Settle(w.db, m, t);
            && (out == Settled <==> Postable(m, t))
            && (out != Settled ==>
                  db' == w.db && out.Stuck? && out.error.Posting? && out.error.error.AmountNotPositive?)
  {
    ExecInv(m, acts);
    hide Exec, Emitted, Known, LifeCycle, Accounted, Clearing.Settle, Postable, AllWaiting, EventOk;
    var w := Exec(m, acts);
    NextInLog(w.log, w.done);
    SettleNext(w.db, m, Known(w.log), Emitted(w.log)[..w.done], Emitted(w.log)[w.done]);
  }

  /** A terminal update always releases, and from then on the order holds nothing unreleased. */
  lemma NextReleaseWorks(m: Market, acts: seq<Action>)
    requires MarketOk(m) && Ordinary(m, acts)
    requires var w := Exec(m, acts);
             w.done < |Emitted(w.log)| && Emitted(w.log)[w.done].kind.OrderChanged?
             && Terminal(Emitted(w.log)[w.done].kind.update.status)
    ensures var w := Exec(m, acts);
            var id := Emitted(w.log)[w.done].kind.update.orderId;
            var (db', out) := Release(w.db, m, id);
            && out == Settled
            && id in db'.orders && (OrderUnfreeze(id) in db'.ledger.journals || db'.orders[id].reserved == 0)
  {
    ExecInv(m, acts);
    hide Exec, Emitted, Known, LifeCycle, Accounted, Release, AllWaiting;
    var w := Exec(m, acts);
    NextInLog(w.log, w.done);
    ReleaseNext(w.db, m, Known(w.log), Emitted(w.log)[..w.done], Emitted(w.log)[w.done]);
    Released(Release(w.db, m, Emitted(w.log)[w.done].kind.update.orderId).0, m, Known(w.log), Emitted(w.log)[..w.done],
             Emitted(w.log)[w.done]);
  }

  lemma Released(db: Rows, m: Market, known: Orders, ev: seq<Event>, e: Event)
    requires Accounted(db, m, known, ev + [e]) && e.kind.OrderChanged? && Terminal(e.kind.update.status)
    requires e.kind.update.orderId in known
    ensures var id := e.kind.update.orderId;
            id in db.orders && (OrderUnfreeze(id) in db.ledger.journals || db.orders[id].reserved == 0)
  {
    hide Sound, OneWallet, FrozenIsHeld, Consumed, Initial;
    assert Ended(ev + [e], e.kind.update.orderId);
    assert Outstanding(db, m, ev + [e], e.kind.update.orderId, known[e.kind.update.orderId]);
  }

  /** Consuming an event again, at any time, changes nothing. */
  lemma RepeatsChangeNothing(m: Market, acts: seq<Action>, k: nat)
    requires MarketOk(m) && Ordinary(m, acts) && k < Exec(m, acts).done
    ensures k < |Emitted(Exec(m, acts).log)| && Exec(m, acts + [Consume(k)]) == Exec(m, acts)
  {
    hide *;
    ExecInv(m, acts);
    ConsumeAgain(Exec(m, acts), m, k);
    ExecOne(m, acts, Consume(k));
    ConsumeActs(Exec(m, acts), m, k);
  }

  lemma ConsumeActs(w: World, m: Market, k: nat)
    requires k < |Emitted(w.log)| && k <= w.done
    ensures Act(w, m, Consume(k)) == Consuming(w, m, k)
  {
    hide Consuming, Emitted;
  }

  lemma ExecOne(m: Market, acts: seq<Action>, a: Action)
    ensures Exec(m, acts + [a]) == Act(Exec(m, acts), m, a)
  {
    hide Act;
    assert (acts + [a])[..|acts|] == acts;
  }

  /** The books are sound in every state of an ordinary run. */
  lemma BooksStaySound(m: Market, acts: seq<Action>)
    requires MarketOk(m) && Ordinary(m, acts)
    ensures Sound(Exec(m, acts).db.ledger) && OneWallet(Exec(m, acts).db.ledger)
  {
    ExecInv(m, acts);
  }
}
