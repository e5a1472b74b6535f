/**
 * Where clearing gets stuck for good: a trade that cannot be posted stays next whatever happens afterwards, even
 * where orders and freezes no longer agree.
 */
module Stalls {
  import opened Protocol
  import opened History
  import opened Ledger
  import opened LedgerSound
  import opened Database
  import opened Reserve
  import opened Clearing
  import opened OrderService
  import opened Settlement
  import opened Exchange
  import opened WalletService
  import opened Trading

  /** The next event is a trade that cannot be posted. */
  ghost predicate AtDust(w: World, m: Market) {
    && w.done < |Emitted(w.log)| && Emitted(w.log)[w.done].kind.TradeMade?
    && !Postable(m, Emitted(w.log)[w.done].kind.trade)
  }

  /** Nothing of the trade is in the books, and its two rows are there. */
  predicate Unsettled(db: Rows, t: Trade) {
    SidesMatch(db.orders, t) && TradeSettled(t.tradeId) !in db.ledger.journals
  }

  ghost predicate Stalled(w: World, m: Market) {
    AtDust(w, m) && Unsettled(w.db, Emitted(w.log)[w.done].kind.trade)
  }

  // ---------- one trade ----------

  /** In no state of the books can it be settled, because one of its moves is empty. */
  lemma NeverPosted(db: Rows, m: Market, t: Trade)
    requires MarketOk(m) && !Postable(m, t) && Unsettled(db, t)
    ensures Settle(db, m, t).0 == db && Settle(db, m, t).1.Stuck?
  {
    hide Posted, Postable;
    if QuoteOf(m, t).Ok? {
      var q := QuoteOf(m, t).value;
      var key, ms := TradeSettled(t.tradeId), SettleMoves(m, t, q);
      EmptyMove(m, t);
      hide SettleMoves, QuoteOf;
      NotPosted(db.ledger, key, ms);
    }
  }

  lemma NotPosted(t: Tables, key: JournalKey, moves: seq<Move>)
    requires key !in t.journals && exists x :: x in moves && x.delta == 0
    ensures Posted(t, key, moves).Err? && Posted(t, key, moves) != Ledger.Err(AlreadyProcessed)
  {
    var t0 := t.(journals := t.journals + {key});
    NeverRepeated(t0, key, moves);
    if PostMoves(t0, key, moves).Ok? {
      PostedAmounts(t0, key, moves);
    }
  }

  lemma EmptyMove(m: Market, t: Trade)
    requires MarketOk(m) && !Postable(m, t) && QuoteOf(m, t).Ok?
    ensures exists x :: x in SettleMoves(m, t, QuoteOf(m, t).value) && x.delta == 0
  {
    QuoteParts(m, t);
    FeesSmall(m, t);
    SignedSmall(0);
    hide QuoteOf, Signed, BuyFee, SellFee, Amount;
    var ms := SettleMoves(m, t, QuoteOf(m, t).value);
    var k := if Fees(m, t) == 0 then 4 else if t.side.Bid? then 3 else 1;
    assert ms[k].delta == 0;
    assert ms[k] in ms;
  }

  // ---------- one action ----------

  lemma LogGrows(w: World, m: Market, a: Action)
    ensures var w' := Act(w, m, a); w'.log == w.log || exists cmd :: w'.log == w.log + [cmd]
  {
    hide Emitted, Handle;
    var w' := Act(w, m, a);
    match a
    case Dispatch(id) =>
      if id in w.pending {
        assert w'.log == w.log + [Place(w.pending[id])];
      }
    case CancelOrder(c) =>
      if c.orderId in w.db.orders {
        assert w'.log == w.log + [Cancel(c)];
      }
    case _ =>
  }

  lemma DoneOnlyConsumes(w: World, m: Market, a: Action)
    requires !a.Consume?
    ensures Act(w, m, a).done == w.done
  {
    hide Emitted;
  }

  lemma SameEvent(log: seq<Command>, cmd: Command, k: nat)
    requires k < |Emitted(log)|
    ensures k < |Emitted(log + [cmd])| && Emitted(log + [cmd])[k] == Emitted(log)[k]
  {
    hide Emitted;
    HistoryGrows(log, cmd, k + 1);
    assert Emitted(log)[..k + 1][k] == Emitted(log + [cmd])[..k + 1][k];
  }

  /** Rows keep their side, and only settling writes a trade's journal. */
  ghost predicate RowsStay(db: Rows, db': Rows) {
    && (forall id | id in db.orders :: id in db'.orders && db'.orders[id].side == db.orders[id].side)
    && (forall x: nat :: TradeSettled(x) in db'.ledger.journals ==> TradeSettled(x) in db.ledger.journals)
  }

  lemma PostingStays(db: Rows, db': Rows, key: JournalKey, moves: seq<Move>)
    requires db'.orders == db.orders && !key.TradeSettled?
    requires db'.ledger == Committed(db.ledger, Posted(db.ledger, key, moves))
    ensures RowsStay(db, db')
  {
    PostedJournals(db.ledger, key, moves);
  }

  lemma PlacingStays(w: World, m: Market, p: PlaceCommand)
    requires p.orderId !in w.db.orders
    ensures RowsStay(w.db, Placing(w, m, p).db)
  {
    hide Posted, CheckPlace, FreezeMoves;
    if CheckPlace(m, p).Accepted? {
      PostedJournals(w.db.ledger, OrderFreeze(p.orderId), FreezeMoves(m, p.userId, p.side, CheckPlace(m, p).reserved));
    }
  }

  lemma ActStays(w: World, m: Market, a: Action)
    requires !a.Consume?
    ensures RowsStay(w.db, Act(w, m, a).db)
  {
    hide Placing, CheckPlace, CreditMoves, DebitMoves, Posted;
    match a
    case PlaceOrder(p) =>
      if p.orderId !in w.db.orders {
        PlacingStays(w, m, p);
      }
    case DispatchFailed(id) =>
      if id in w.pending && CheckPlace(m, w.pending[id]).Accepted? {
        var row := RowFor(w.pending[id], CheckPlace(m, w.pending[id]).reserved);
        PostedJournals(w.db.ledger, OrderUnfreeze(id), ReleaseMoves(m, row));
      }
    case AdminCredit(bizId, user, c, amount) =>
      PostingStays(w.db, Act(w, m, a).db, Deposit(bizId), CreditMoves(user, c, amount));
    case CreditDeposit(ref, user, c, amount) =>
      if ref in w.db.deposits {
        PostingStays(w.db, Act(w, m, a).db, Deposit(OnchainId(ref)), CreditMoves(user, c, amount));
      }
    case WithdrawFunds(chain, id, user, c, amount) =>
      PostedJournals(w.db.ledger, Withdraw(id), DebitMoves(user, c, amount, chain.withdrawFee));
    case _ =>
  }

  /** Consuming another event leaves the trade unsettled. */
  lemma HandleStays(db: Rows, m: Market, e: Event, t: Trade)
    requires Unsettled(db, t) && (e.kind.TradeMade? ==> e.kind.trade.tradeId != t.tradeId)
    ensures Unsettled(Handle(db, m, e).0, t)
  {
    hide Posted, QuoteOf, SettleMoves, ReleaseMoves, TooBig;
    match e.kind
    case TradeMade(x) =>
      if QuoteOf(m, x).Ok? {
        PostedJournals(db.ledger, TradeSettled(x.tradeId), SettleMoves(m, x, QuoteOf(m, x).value));
      }
    case OrderChanged(u) =>
      if u.orderId in db.orders {
        PostedJournals(db.ledger, OrderUnfreeze(u.orderId), ReleaseMoves(m, db.orders[u.orderId]));
      }
  }

  lemma OtherTrade(log: seq<Command>, k: nat, n: nat)
    requires k < n < |Emitted(log)| && Emitted(log)[k].kind.TradeMade? && Emitted(log)[n].kind.TradeMade?
    ensures Emitted(log)[k].kind.trade.tradeId != Emitted(log)[n].kind.trade.tradeId
  {
    hide *;
    TradeIdIs(log, k);
    TradeIdIs(log, n);
    CountNext(Emitted(log), k);
    TradeCountUpTo(Emitted(log), k + 1, n);
  }

  lemma TradeIdIs(log: seq<Command>, k: nat)
    requires k < |Emitted(log)| && Emitted(log)[k].kind.TradeMade?
    ensures Emitted(log)[k].kind.trade.tradeId == TradeCount(Emitted(log)[..k]) + 1
  {
    TradesRespectBothOrders(log, k);
    hide Emitted, TradeCount, Traded, Ended;
  }

  lemma CountNext(ev: seq<Event>, k: nat)
    requires k < |ev| && ev[k].kind.TradeMade?
    ensures TradeCount(ev[..k + 1]) == TradeCount(ev[..k]) + 1
  {
    assert ev[..k + 1][..k] == ev[..k];
  }

  lemma ConsumeStays(w: World, m: Market, k: nat)
    requires MarketOk(m) && Stalled(w, m)
    ensures var w' := Act(w, m, Consume(k)); w'.log == w.log && w'.done == w.done && Stalled(w', m)
  {
    hide Emitted, Handle, Postable, Unsettled;
    var t := Emitted(w.log)[w.done].kind.trade;
    if k < w.done {
      if Emitted(w.log)[k].kind.TradeMade? {
        OtherTrade(w.log, k, w.done);
      }
      HandleStays(w.db, m, Emitted(w.log)[k], t);
    } else if k == w.done {
      NextIsStuck(w.db, m, Emitted(w.log)[k]);
    }
  }

  lemma NextIsStuck(db: Rows, m: Market, e: Event)
    requires MarketOk(m) && e.kind.TradeMade? && !Postable(m, e.kind.trade) && Unsettled(db, e.kind.trade)
    ensures Handle(db, m, e).0 == db && Handle(db, m, e).1.Stuck?
  {
    NeverPosted(db, m, e.kind.trade);
  }

  lemma StalledStays(w: World, m: Market, a: Action)
    requires MarketOk(m) && Stalled(w, m)
    ensures Act(w, m, a).done == w.done && Stalled(Act(w, m, a), m)
  {
    hide Act, Emitted, Postable;
    if a.Consume? {
      ConsumeStays(w, m, a.k);
    } else {
      DoneOnlyConsumes(w, m, a);
      ActStays(w, m, a);
      LogGrows(w, m, a);
      var w' := Act(w, m, a);
      if w'.log != w.log {
        var cmd :| w'.log == w.log + [cmd];
        SameEvent(w.log, cmd, w.done);
      }
    }
  }

  // ---------- runs ----------

  lemma DustIsStalled(w: World, m: Market)
    requires MarketOk(m) && Inv(w, m) && AtDust(w, m)
    ensures Stalled(w, m)
  {
    NextInLog(w.log, w.done);
    hide Emitted, Known, Accounted, Postable, LifeCycle, EventOk, AllWaiting, Paid, SidesMatch;
    TradeIsCovered(w.db, m, Known(w.log), Emitted(w.log)[..w.done], Emitted(w.log)[w.done]);
  }

  /** For good: whatever happens later, ordinary or not, clearing stays at that trade. */
  lemma {:induction false} StuckForGood(m: Market, acts: seq<Action>, more: seq<Action>)
    requires MarketOk(m) && Ordinary(m, acts) && AtDust(Exec(m, acts), m)
    ensures Exec(m, acts + more).done == Exec(m, acts).done && Stalled(Exec(m, acts + more), m)
  {
    hide *;
    if more == [] {
      assert acts + more == acts;
      ExecInv(m, acts);
      DustIsStalled(Exec(m, acts), m);
    } else {
      var front, last := more[..|more| - 1], more[|more| - 1];
      StuckForGood(m, acts, front);
      assert acts + more == (acts + front) + [last];
      ExecOne(m, acts + front, last);
      StalledStays(Exec(m, acts + front), m, last);
    }
  }
}
